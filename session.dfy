/**
 * The keys of `st.session_state` that main.py reads and writes, and the
 * step of `main()` that loads a saved entry when another date is picked in
 * the sidebar (main.py:165-177). Streamlit reruns `main()` on every
 * interaction; `loaded_date` is what keeps a rerun from loading the same
 * entry again over the user's edits.
 */
module Session {
  import opened Wrappers
  import opened Store
  import opened Extractor

  /**
   * A snapshot of the session. The four text-area keys read as `""` while
   * unset (`st.session_state.get(key, "")`); an output key is `None` until it
   * is first set, and only a set output is displayed (main.py:215-229).
   */
  datatype View = View(
    loadedDate: string,
    journal: string,
    intention: string,
    dream: string,
    priorities: string,
    reflection: Option<string>,
    dreamInterpretation: Option<string>,
    mindsetInsight: Option<string>,
    strategy: Option<string>)

  /** The session on the first run: `loaded_date` set to `""` (main.py:234-236), nothing else. */
  function Initial(): View {
    View("", "", "", "", "", None, None, None, None)
  }

  /**
   * The guard of main.py:166: a date is selected, it is not the empty
   * text (Python treats `""` and `None` alike as false), and it is not the
   * date loaded last.
   */
  predicate WantsLoad(v: View, selected: Option<string>) {
    selected.Some? && selected.value != "" && selected.value != v.loadedDate
  }

  /** The eight keys and `loaded_date` after loading row `e` of `date` (main.py:169-177). */
  function Loaded(v: View, date: string, e: Entry): View {
    View(date, e.journal, e.intention, e.dream, e.priorities,
         Some(e.reflection), Some(e.dreamInterpretation), Some(e.mindsetInsight), Some(e.strategy))
  }

  /**
   * The session after the selection step of one run: loaded from the
   * store when the guard holds and `load_entry` finds a row, unchanged
   * otherwise.
   */
  function AfterSelect(v: View, selected: Option<string>, entries: map<string, Entry>): (r: View)
    ensures r.loadedDate != v.loadedDate <==> WantsLoad(v, selected) && selected.value in entries
    ensures r == v || r.loadedDate != v.loadedDate
  {
    if WantsLoad(v, selected) then
      match Lookup(entries, selected.value)
      case Some(e) => Loaded(v, selected.value, e)
      case None => v
    else v
  }

  /** The four output keys after a generation (main.py:197-200); nothing else changes. */
  function WithOutputs(v: View, p: Sections): View {
    v.(reflection := Some(p.reflection), dreamInterpretation := Some(p.dreamInterpretation),
       mindsetInsight := Some(p.mindsetInsight), strategy := Some(p.dayStrategy))
  }

  /** The session shows row `e`: its four inputs in the text areas and its four sections as outputs. */
  predicate Shows(v: View, e: Entry) {
    && v.journal == e.journal && v.intention == e.intention
    && v.dream == e.dream && v.priorities == e.priorities
    && v.reflection == Some(e.reflection) && v.dreamInterpretation == Some(e.dreamInterpretation)
    && v.mindsetInsight == Some(e.mindsetInsight) && v.strategy == Some(e.strategy)
  }

  /**
   * Picking a saved date other than the one loaded shows that entry in full
   * and records the date as loaded.
   */
  lemma SelectLoadsEntry(v: View, d: string, entries: map<string, Entry>)
    requires d != "" && d != v.loadedDate && d in entries
    ensures AfterSelect(v, Some(d), entries).loadedDate == d
    ensures Shows(AfterSelect(v, Some(d), entries), entries[d])
  {
  }

  /**
   * On the first run `loaded_date` is `""`, so whatever saved date the
   * select box starts on is loaded at once.
   */
  lemma FirstRunLoadsSelection(d: string, entries: map<string, Entry>)
    requires d != "" && d in entries
    ensures AfterSelect(Initial(), Some(d), entries).loadedDate == d
    ensures Shows(AfterSelect(Initial(), Some(d), entries), entries[d])
  {
    SelectLoadsEntry(Initial(), d, entries);
  }

  /** With no date selected, the empty date selected, or the loaded date selected again, nothing is loaded. */
  lemma SelectKeepsSession(v: View, selected: Option<string>, entries: map<string, Entry>)
    requires selected.None? || selected.value == "" || selected.value == v.loadedDate
    ensures AfterSelect(v, selected, entries) == v
  {
  }

  /** A selected date without a row leaves the session as it was. */
  lemma SelectMissingKeepsSession(v: View, d: string, entries: map<string, Entry>)
    requires d !in entries
    ensures AfterSelect(v, Some(d), entries) == v
  {
  }

  /**
   * Rerunning with the same selection and table loads nothing more: edits
   * made after a load survive every later rerun.
   */
  lemma SelectIdempotent(v: View, selected: Option<string>, entries: map<string, Entry>)
    ensures AfterSelect(AfterSelect(v, selected, entries), selected, entries) == AfterSelect(v, selected, entries)
  {
    var w := AfterSelect(v, selected, entries);
    if w != v {
      assert w.loadedDate == selected.value;
      SelectKeepsSession(w, selected, entries);
    }
  }

  /** Edits to the text areas after a load are kept by the next rerun on the same date. */
  lemma EditsSurviveRerun(v: View, d: string, entries: map<string, Entry>, journal: string)
    requires d != "" && d != v.loadedDate && d in entries
    ensures AfterSelect(AfterSelect(v, Some(d), entries).(journal := journal), Some(d), entries).journal == journal
  {
    SelectLoadsEntry(v, d, entries);
  }

  /** `st.session_state` for one browser session. */
  class SessionState {
    var loadedDate: string
    var journal: string
    var intention: string
    var dream: string
    var priorities: string
    var reflectionOutput: Option<string>
    var dreamInterpretationOutput: Option<string>
    var mindsetInsightOutput: Option<string>
    var strategyOutput: Option<string>

    function Snapshot(): View
      reads this
    {
      View(loadedDate, journal, intention, dream, priorities,
           reflectionOutput, dreamInterpretationOutput, mindsetInsightOutput, strategyOutput)
    }

    /** A new browser session, after the entry point has set `loaded_date`. */
    constructor()
      ensures loadedDate == "" && journal == "" && intention == "" && dream == "" && priorities == ""
      ensures reflectionOutput.None? && dreamInterpretationOutput.None?
      ensures mindsetInsightOutput.None? && strategyOutput.None?
      ensures Snapshot() == Initial()
    {
      loadedDate := "";
      journal := "";
      intention := "";
      dream := "";
      priorities := "";
      reflectionOutput := None;
      dreamInterpretationOutput := None;
      mindsetInsightOutput := None;
      strategyOutput := None;
    }

    /** The selection step of `main()`: load the selected entry when the guard holds. */
    method SelectDate(selected: Option<string>, store: EntryStore)
      modifies this
      ensures Snapshot() == AfterSelect(old(Snapshot()), selected, store.entries)
    {
      if selected.Some? && selected.value != "" && selected.value != loadedDate {
        var found := store.LoadEntry(selected.value);
        if found.Some? {
          var e := found.value;
          journal := e.journal;
          intention := e.intention;
          dream := e.dream;
          priorities := e.priorities;
          reflectionOutput := Some(e.reflection);
          dreamInterpretationOutput := Some(e.dreamInterpretation);
          mindsetInsightOutput := Some(e.mindsetInsight);
          strategyOutput := Some(e.strategy);
          loadedDate := selected.value;
        }
      }
    }

    /** Store the four parsed sections in their output keys. */
    method ShowSections(p: Sections)
      modifies this
      ensures reflectionOutput == Some(p.reflection) && dreamInterpretationOutput == Some(p.dreamInterpretation)
      ensures mindsetInsightOutput == Some(p.mindsetInsight) && strategyOutput == Some(p.dayStrategy)
      ensures loadedDate == old(loadedDate) && journal == old(journal) && intention == old(intention)
      ensures dream == old(dream) && priorities == old(priorities)
      ensures Snapshot() == WithOutputs(old(Snapshot()), p)
    {
      reflectionOutput := Some(p.reflection);
      dreamInterpretationOutput := Some(p.dreamInterpretation);
      mindsetInsightOutput := Some(p.mindsetInsight);
      strategyOutput := Some(p.dayStrategy);
    }
  }
}
