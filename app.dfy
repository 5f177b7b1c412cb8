/**
 * The "Generate Insights" button of `main()` (main.py:188-212): refused
 * while a past date is being viewed; otherwise the model's reply is parsed,
 * the four sections go to the session's output keys and the whole entry is
 * saved under today's date.
 */
module App {
  import opened Wrappers
  import opened Text
  import opened Extractor
  import opened Store
  import opened Session
  import FallbackFacts

  /** What pressing the button did. */
  datatype Outcome = Refused | Generated(sections: Sections)

  /**
   * The button is refused exactly when the selected date is set, non-empty
   * and not today (main.py:189): with no saved entries, or today selected,
   * it goes ahead.
   */
  predicate MayGenerate(today: string, selected: Option<string>) {
    !(selected.Some? && selected.value != today && selected.value != "")
  }

  /** The row `save_entry` writes for today (main.py:202-212). */
  function TodaysEntry(journal: string, intention: string, dream: string, priorities: string, p: Sections): Entry {
    Entry(journal, intention, dream, priorities, p.reflection, p.dreamInterpretation, p.mindsetInsight, p.dayStrategy)
  }

  /**
   * One press of the button. The model call is outside the model: `reply`
   * is its text, `""` when the call failed (main.py:65-67).
   */
  method Generate(today: string, selected: Option<string>,
                  journal: string, intention: string, dream: string, priorities: string,
                  reply: string, store: EntryStore, session: SessionState)
    returns (outcome: Outcome)
    modifies store, session
    ensures outcome.Refused? <==> !MayGenerate(today, selected)
    ensures outcome.Refused? ==> store.entries == old(store.entries) && session.Snapshot() == old(session.Snapshot())
    ensures outcome.Generated? ==>
      outcome.sections == ParseAiOutput(reply)
      && session.Snapshot() == WithOutputs(old(session.Snapshot()), outcome.sections)
      && store.entries == Saved(old(store.entries), today,
           TodaysEntry(journal, intention, dream, priorities, outcome.sections))
    ensures forall d :: d != today ==> (d in store.entries <==> d in old(store.entries))
    ensures forall d :: d != today && d in old(store.entries) ==> store.entries[d] == old(store.entries)[d]
  {
    if selected.Some? && selected.value != today && selected.value != "" {
      outcome := Refused;
    } else {
      var parsed := ParseAiOutput(reply);
      session.ShowSections(parsed);
      store.SaveEntry(today, journal, intention, dream, priorities,
                      parsed.reflection, parsed.dreamInterpretation, parsed.mindsetInsight, parsed.dayStrategy);
      outcome := Generated(parsed);
    }
  }

  /**
   * A past date can be viewed but never overwritten through the button: with
   * it selected the button is refused, and a generation for today keeps its
   * row, as every other row, exactly as it was.
   */
  lemma PastDatesAreReadOnly(entries: map<string, Entry>, today: string, e: Entry, d: string)
    requires d != today
    ensures d != "" ==> !MayGenerate(today, Some(d))
    ensures d in Saved(entries, today, e) <==> d in entries
    ensures d in entries ==> Saved(entries, today, e)[d] == entries[d]
  {
  }

  /**
   * What the select box can hold: nothing exactly when the listing is empty,
   * otherwise one of the listed dates (the first one until the user picks
   * another).
   */
  predicate Selectable(selected: Option<string>, dates: seq<string>) {
    && (selected.None? <==> |dates| == 0)
    && (selected.Some? ==> selected.value in dates)
  }

  /**
   * On a day without a saved entry, once any entry exists the button is
   * always refused: the select box always holds a listed date, and every
   * listed date is a past one. Only the very first entry can be created.
   */
  lemma NewDayRefused(entries: map<string, Entry>, today: string, dates: seq<string>, selected: Option<string>)
    requires entries != map[] && "" !in entries && today !in entries
    requires forall d :: d in dates <==> d in entries
    requires Selectable(selected, dates)
    ensures !MayGenerate(today, selected)
  {
    var d :| d in entries;
    assert d in dates;
  }

  /** With nothing saved yet the select box is empty and the button goes ahead. */
  lemma EmptyTableAllowed(today: string, dates: seq<string>, selected: Option<string>)
    requires |dates| == 0 && Selectable(selected, dates)
    ensures MayGenerate(today, selected)
  {
  }

  /**
   * After a generation, the session's outputs and text areas show exactly
   * the row saved for today, since each text area is bound to its session key.
   */
  lemma ShownIsSaved(v: View, p: Sections)
    ensures Shows(WithOutputs(v, p), TodaysEntry(v.journal, v.intention, v.dream, v.priorities, p))
  {
  }

  /** Every section a generation saves or shows is stripped of surrounding white space. */
  lemma SavedSectionsTrimmed(journal: string, intention: string, dream: string, priorities: string, reply: string)
    ensures var e := TodaysEntry(journal, intention, dream, priorities, ParseAiOutput(reply));
      IsTrimmed(e.reflection) && IsTrimmed(e.dreamInterpretation)
      && IsTrimmed(e.mindsetInsight) && IsTrimmed(e.strategy)
  {
  }

  /** A failed model call still saves today's entry, with four empty sections. */
  lemma FailedCallSavesEmptySections(journal: string, intention: string, dream: string, priorities: string)
    ensures TodaysEntry(journal, intention, dream, priorities, ParseAiOutput(""))
      == Entry(journal, intention, dream, priorities, "", "", "", "")
  {
    FallbackFacts.EmptyReply();
  }

  /**
   * Once today's entry is saved and today is the latest date, today heads
   * the sidebar's listing, the date the select box shows first.
   */
  lemma {:induction false} TodayHeadsListing(entries: map<string, Entry>, today: string, e: Entry, dates: seq<string>)
    requires forall d :: d in entries && d != today ==> Below(d, today)
    requires StrictlyDescending(dates)
    requires forall d :: d in dates <==> d in Saved(entries, today, e)
    ensures |dates| > 0 && dates[0] == today
  {
    assert today in dates;
    if dates[0] != today {
      var k :| 0 <= k < |dates| && dates[k] == today;
      assert Below(today, dates[0]);
      assert dates[0] in Saved(entries, today, e);
      assert Below(dates[0], today);
      BelowTransitive(today, dates[0], today);
      BelowIrreflexive(today);
      assert false;
    }
  }

  /**
   * The rerun after a generation, with today selected and not yet loaded,
   * reloads exactly what was just typed and generated.
   */
  lemma RerunShowsSavedEntry(v: View, entries: map<string, Entry>, today: string,
                             journal: string, intention: string, dream: string, priorities: string, reply: string)
    requires today != "" && today != v.loadedDate
    ensures var p := ParseAiOutput(reply);
      var w := AfterSelect(WithOutputs(v, p), Some(today),
                           Saved(entries, today, TodaysEntry(journal, intention, dream, priorities, p)));
      w.loadedDate == today && w.journal == journal && w.intention == intention
      && w.dream == dream && w.priorities == priorities
      && w.reflection == Some(p.reflection) && w.dreamInterpretation == Some(p.dreamInterpretation)
      && w.mindsetInsight == Some(p.mindsetInsight) && w.strategy == Some(p.dayStrategy)
  {
    var p := ParseAiOutput(reply);
    var m := Saved(entries, today, TodaysEntry(journal, intention, dream, priorities, p));
    SelectLoadsEntry(WithOutputs(v, p), today, m);
  }
}
