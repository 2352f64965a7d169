/** The author's chronicle as the services change it, row by row. */
module ChronicleStore {
  import opened Options
  import opened GradeMarks
  import opened Saves

  class Chronicle {
    const rules: Rules
    var entries: map<EntryId, Entry>
    var next: EntryId
    var counter: map<Day, nat>
    var paid: set<Day>
    var coins: nat

    constructor (rules: Rules)
      ensures this.rules == rules && Contents() == EMPTY_BOOK
    {
      this.rules := rules;
      entries, next, counter, paid, coins := map[], 0, map[], {}, 0;
    }

    ghost function Contents(): Book reads this {
      Book(entries, next, counter, paid, coins)
    }

    /** The stored row with this save ID, if any. */
    method Find(saveId: SaveId) returns (found: Option<EntryId>)
      ensures found == FindSave(Contents(), saveId)
    {
      var top: nat := next;
      while top > 0
        invariant top <= next
        invariant FindSaveBelow(Contents(), saveId, next) == FindSaveBelow(Contents(), saveId, top)
      {
        top := top - 1;
        if top in entries && entries[top].saveId == Some(saveId) {
          return Some(top);
        }
      }
      return None;
    }

    method FindJournal(day: Day) returns (found: Option<EntryId>)
      ensures found == FindJournalBelow(Contents(), day, next)
    {
      var top: nat := next;
      while top > 0
        invariant top <= next
        invariant FindJournalBelow(Contents(), day, next) == FindJournalBelow(Contents(), day, top)
      {
        top := top - 1;
        if top in entries && entries[top].kind == Journal && entries[top].day == day {
          return Some(top);
        }
      }
      return None;
    }

    /** Returns the count before this call; the row survives whatever happens to entries. */
    method BumpDailyCounter(day: Day) returns (prior: nat)
      modifies this`counter
      ensures prior == Count(old(Contents()), day)
      ensures counter == old(counter)[day := prior + 1]
    {
      if day !in counter {
        counter := counter[day := 0];
      }
      prior := counter[day];
      counter := counter[day := prior + 1];
    }

    method Insert(entry: Entry) returns (id: EntryId)
      modifies this`entries, this`next
      ensures Contents() == Added(old(Contents()), entry) && id == old(next)
    {
      id := next;
      entries := entries[id := entry];
      next := next + 1;
    }

    /** A retry without a date keeps the date of its original request. */
    method DayOf(save: GradeSave, existing: Option<EntryId>, today: Day) returns (day: Day)
      requires existing == FindSave(Contents(), save.saveId)
      ensures day == GradeDay(Contents(), save, today)
    {
      day := if save.day.Some? then save.day.value else today;
      if existing.Some? && save.day.None? && entries[existing.value].firstDay.Some? {
        day := entries[existing.value].firstDay.value;
      }
    }

    method WriteGrade(save: GradeSave, today: Day) returns (response: Response)
      modifies this
      ensures (Contents(), response) == Saves.WriteGrade(rules, old(Contents()), save, today)
    {
      if !rules.isChild {
        return Denied;
      }
      if (save.day.Some? && save.day.value > today) || Normalized(save.result, rules.fold).None? {
        return Invalid;
      }
      var existing := Find(save.saveId);
      var day := DayOf(save, existing, today);
      var digest := DigestOfGrade(rules, save, day);
      if existing.Some? {
        var entry := entries[existing.value];
        if entry.kind != Grade || entry.digest != Some(digest) {
          return Conflict;
        }
        return Replayed(existing.value);
      }
      response := CreateGrade(Entry(Grade, Some(save.saveId), Some(digest), Some(day), NoReward,
                                    GradeContent(digest.result), save.reflection, day, save.private), today);
    }

    /** The new row, then the day's counter, then the reward it allows. */
    method CreateGrade(entry: Entry, today: Day) returns (response: Response)
      modifies this
      ensures response == Created(old(next))
      ensures Contents() ==
        var b := old(Contents());
        var reward := if Count(b, today) == 0 then Rewarded(today) else DailyLimit(today);
        Added(b, entry.(reward := reward)).(counter := b.counter[today := Count(b, today) + 1])
    {
      var id := Insert(entry);
      var prior := BumpDailyCounter(today);
      entries := entries[id := entry.(reward := if prior == 0 then Rewarded(today) else DailyLimit(today))];
      response := Created(id);
    }

    method UpdateGrade(id: EntryId, fix: Correction, today: Day) returns (response: Response)
      modifies this`entries
      ensures (Contents(), response) == Saves.UpdateGrade(rules, old(Contents()), id, fix, today)
    {
      if !rules.isChild {
        return Denied;
      }
      if id !in entries || entries[id].kind != Grade {
        return Missing;
      }
      var entry := entries[id];
      if (fix.day.Some? && fix.day.value > today) || fix.namesSave {
        return Invalid;
      }
      var result := CorrectedResult(entry.content, fix);
      if result.None? {
        return Invalid;
      }
      entry := entry.(content := GradeContent(result.value));
      if fix.reflection.Some? {
        entry := entry.(text := fix.reflection.value);
      }
      if fix.day.Some? {
        entry := entry.(day := fix.day.value);
      }
      if fix.private.Some? {
        entry := entry.(private := fix.private.value);
      }
      entries := entries[id := entry];
      response := Updated(id);
    }

    /** The serializer's choice: a report stays a report, an individual grade stays one. */
    method CorrectedResult(content: Content, fix: Correction) returns (result: Option<PlainResult>)
      ensures result == Corrected(rules, content, fix)
    {
      if content.TextContent? {
        return None;
      }
      var wasReport := content.result.PlainReport?;
      if fix.report.Some? || wasReport {
        if !wasReport || fix.mark != NO_MARK_FIX {
          return None;
        }
        if fix.report.None? {
          return Some(content.result);
        }
        return CorrectedReport(content.result, fix.report.value, rules.fold);
      }
      return CorrectedIndividual(content.result, fix.mark);
    }

    method AwardDailyWritingCoins(day: Day)
      modifies this`paid, this`coins
      ensures Contents() == Paid(rules, old(Contents()), day)
    {
      if day !in paid {
        coins := coins + rules.coinAmount;
        paid := paid + {day};
      }
    }

    method WriteJournal(save: JournalSave, today: Day) returns (response: Response)
      modifies this
      ensures (Contents(), response) == Saves.WriteJournal(rules, old(Contents()), save, today)
    {
      if IsBlank(rules, save.title, save.summary) {
        return Invalid;
      }
      var day := if save.day.Some? then save.day.value else today;
      var digest := DigestOfJournal(rules, save);
      if save.saveId.Some? {
        var known := Find(save.saveId.value);
        if known.Some? {
          if entries[known.value].kind != Journal || entries[known.value].digest != Some(digest) {
            return Conflict;
          }
          return Replayed(known.value);
        }
      }
      var existing := FindJournal(day);
      if existing.Some? {
        return AlreadyExists(existing.value);
      }
      var id := Insert(Entry(Journal, save.saveId, Some(digest), None, Rewarded(day),
                             TextContent(Titled(rules, save.title, save.summary, day)),
                             save.summary, day, save.private));
      AwardDailyWritingCoins(day);
      response := Created(id);
    }

    method UpdateJournal(id: EntryId, edit: TextEdit, today: Day) returns (response: Response)
      modifies this`entries
      ensures (Contents(), response) == Saves.UpdateJournal(rules, old(Contents()), id, edit, today)
    {
      if id !in entries || entries[id].kind != Journal {
        return Denied;
      }
      var entry := entries[id];
      var changesText := edit.title.Some? || edit.summary.Some?;
      if changesText && entry.day != today {
        return Denied;
      }
      if changesText {
        var title := Or(edit.title, if entry.content.TextContent? then entry.content.title else "");
        var summary := Or(edit.summary, entry.text);
        if IsBlank(rules, title, summary) {
          return Invalid;
        }
        entry := entry.(content := TextContent(Titled(rules, title, summary, entry.day)), text := summary);
      }
      if edit.private.Some? {
        entry := entry.(private := edit.private.value);
      }
      entries := entries[id := entry];
      response := Updated(id);
    }
  }
}
