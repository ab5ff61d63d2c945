/**
 * The gratitude scheduler: prompt for a gratitude exercise about once a
 * week, or right after a tough session, judging only by the newest
 * journal entry.
 */
module Gratitude {
  import opened Store

  /** Milliseconds in a day (1000 * 60 * 60 * 24). */
  const MsPerDay: int := 86400000

  /** Whole days from `date` to `now`, rounded down; negative for a future `date`. */
  function ElapsedDays(now: int, date: int): (days: int)
    ensures days * MsPerDay <= now - date < days * MsPerDay + MsPerDay
  {
    (now - date) / MsPerDay
  }

  /** The moods that mark a tough session. */
  predicate IsToughMood(mood: string)
    ensures IsToughMood(mood) ==> mood != [] && mood != "unknown"
  {
    mood == "sad" || mood == "anxious"
  }

  /**
   * `shouldPromptGratitude`: always for an empty journal; otherwise when
   * the newest entry is at least seven whole days old or was written in a
   * tough mood.
   */
  function ShouldPromptGratitude(journal: seq<JournalEntry>, now: int): (r: bool)
    ensures journal == [] ==> r
    ensures journal != [] ==>
      (r <==> now - journal[|journal| - 1].date >= 7 * MsPerDay || IsToughMood(journal[|journal| - 1].mood))
  {
    if |journal| == 0 then true
    else
      var last := journal[|journal| - 1];
      if ElapsedDays(now, last.date) >= 7 then true
      else IsToughMood(last.mood)
  }

  /** Only the newest entry counts: whatever precedes it makes no difference. */
  lemma OnlyLastEntryMatters(earlier: seq<JournalEntry>, last: JournalEntry, now: int)
    ensures ShouldPromptGratitude(earlier + [last], now) == ShouldPromptGratitude([last], now)
  {
  }

  /** A newest entry dated in the future never triggers the weekly rule; only its mood can. */
  lemma FutureEntryOnlyByMood(journal: seq<JournalEntry>, now: int)
    requires journal != [] && journal[|journal| - 1].date > now
    ensures ShouldPromptGratitude(journal, now) <==> IsToughMood(journal[|journal| - 1].mood)
  {
  }

  /**
   * Had the decision been taken after this turn's entry (dated `now`) was
   * appended, only that entry's own mood would count and the weekly rule
   * could never fire; the handler therefore decides on the journal as it
   * was before the append.
   */
  lemma PostAppendDecisionIgnoresHistory(journal: seq<JournalEntry>, e: JournalEntry, now: int)
    requires e.date == now
    ensures ShouldPromptGratitude(journal + [e], now) <==> IsToughMood(e.mood)
  {
  }

  /** Spot values: an empty journal, an 8-day-old happy entry, a fresh happy and a fresh sad entry. */
  lemma SchedulerExamples(now: int)
    ensures ShouldPromptGratitude([], now)
    ensures ShouldPromptGratitude([JournalEntry(now - 8 * MsPerDay, "", "", "happy", Session)], now)
    ensures !ShouldPromptGratitude([JournalEntry(now, "", "", "happy", Session)], now)
    ensures ShouldPromptGratitude([JournalEntry(now, "", "", "sad", Session)], now)
  {
  }
}
