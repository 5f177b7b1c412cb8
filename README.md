# Daily Reflection Journal — a verified model

The Daily Reflection Journal is a one-file Streamlit app (`main.py`). The user
writes a journal entry, an intention, a dream and three priorities. A language
model answers with four numbered sections: an inner reflection summary, a
dream interpretation, an energy/mindset insight and a suggested day strategy.
The app splits that reply into four fields, shows them, and keeps one entry
per date in an SQLite table. A sidebar lists the saved dates and loads an old
entry for viewing. Insights can be generated only for today's entry.

This project models these parts of the app and proves properties about them:

- `text.dfy` (modules `Wrappers`, `Text`): Python's whitespace class, `str.strip()`
  and the case-insensitive comparison of `re.IGNORECASE`.
- `extractor.dfy` (modules `Extractor`, `FallbackFacts`): `parse_ai_output`.
  Its two regular expressions are modelled by what they match, not by a regex engine.
  Each recogniser is a deterministic function that returns the choice Python's
  backtracking matcher makes:
  - greedy parts take the longest text that lets the rest succeed;
  - lazy captures take the shortest;
  - `re.search` takes the leftmost start.

  The primary tier is the combined pattern. The fallback tier is `extract_section`,
  modelled as written.
- `layout.dfy` (module `PrimaryLayout`): the main parser theorem, stated for a
  well-formed reply. The text before the first header is ignored. Each field is
  exactly the section text between its header line and the next header, and the
  strategy runs to the end. The theorem covers these header styles:
  - headers may be wrapped in `**`;
  - titles may be in any letter case;
  - a colon is optional;
  - the fourth header may carry a parenthetical note.

  It covers one spacing only: one space after `k.`, the colon right after the
  title or note, and a single newline between a section and the next header
  (see "Left out").
- `fallback_layout.dfy` (module `FallbackLayout`): what the fallback tier
  recovers from a laid-out reply whose header lines are plain (no `**`, no note).
  On such a reply both tiers read the same four sections. Without the third
  header, the fallback still returns the reflection and the strategy.
- `store.dfy` (module `Store`): the `entries` table as a class over a map from
  dates to entries.
  - `save_entry` is an insert-or-overwrite.
  - `load_entry` returns an optional row.
  - `get_all_dates` lists the dates once each, in strictly descending text order.
- `session.dfy` (module `Session`): the `st.session_state` keys the app uses, and
  the step that loads a saved entry when another date is picked in the sidebar.
- `app.dfy` (module `App`): the "Generate Insights" button.
  - It is refused while a past date is viewed.
  - Otherwise the reply is parsed, the four outputs go into the session, and the
    entry is saved under today's date.

In the fallback tier, section 2 ends only at a newline followed by the third
label (the lookahead at main.py:93, given label 3 at main.py:101). So a reply
without the third header loses the dream interpretation as well as the mindset
insight, while the reflection and the strategy are still extracted (`FallbackFacts.MissingThirdHeader`,
`FallbackLayout.MissingThirdHeaderLayout`).

The fallback's start labels allow no parenthetical. So the fourth header, written
with the `(time-aligned tasks)` note the prompt itself asks for (main.py:57),
never opens section 4 in the fallback tier, and the strategy comes back empty
there (`FallbackFacts.NotedFourthHeaderLostInFallback`). The primary tier
accepts the note.

In the primary tier, a section 1-3 whose text ends in `**` loses those stars.
The lazy capture stops as early as it can, and the next header's optional
leading `**` can absorb them (main.py:74-77). `PrimaryLayout.Clean` excludes
such sections from the main theorem for this reason.

The select box in the sidebar always holds one of the listed dates, the latest
by default. It is empty only when no entry is saved (main.py:158-163). On a day
with no entry yet, today is not in the listing, so once any entry exists the
selected date is a past one and the button is refused (`App.NewDayRefused`).
As written, only the first entry ever can be generated; `App.EmptyTableAllowed`
covers that case. `App.TodayHeadsListing` therefore applies only on the day of
that first entry.

## Model

| member | source | states |
|---|---|---|
| Text.Strip | main.py:84-87 | `.strip()` returns a text with no whitespace at either end, never longer than its input |
| Text.StripCuts | main.py:84-87 | what `.strip()` keeps is the input less a whitespace prefix and a whitespace suffix |
| Text.StripTrimmed | main.py:84-87 | stripping an already trimmed text changes nothing |
| Text.StripAllSpace | main.py:97 | a capture of whitespace only strips to the empty text |
| Text.StripTrailingSpace | main.py:84-87 | stripping a trimmed non-empty text followed by whitespace gives back the text |
| Extractor.Title | main.py:74-77 | each header title starts with a lower-case ASCII letter (the titles compared under `(?i)`) |
| Extractor.LabelEnd | main.py:74-77 | the label `k\.\s*<title>` matches only on the digit `k` and a dot, and ends after the full title |
| Extractor.DecorEnd | main.py:74-77 | the greedy `\s*:?\s*(?:\*\*)?\s*` decoration stays inside the text |
| Extractor.LastNewlineEnd | main.py:74-77 | the chosen line end is the last newline of the decoration: none follows it, and none exists when the result is absent |
| Extractor.LineEnd | main.py:74-77 | a header line ends just after a newline |
| Extractor.LeadEnd | main.py:74-77 | the lead `(?:\*\*)?\s*` consumes only stars and whitespace |
| Extractor.NoteLineEnd | main.py:77 | the fourth header's optional `(\s*\(.*?\))?` group and line end stay past the title |
| Extractor.CloseParenFirst | main.py:77 | the note's lazy `.*?` ends at the first `)` after which the line can end, and the line ends as it does after that `)`; with no such `)` the note does not match |
| Extractor.LabelLineEnd | main.py:74-77 | header `k` starting at its label ends after it |
| Extractor.HeaderEnd | main.py:74-77 | a header (lead, label, decoration, newline) ends after it starts |
| Extractor.Rest | main.py:73-80 | the rest of the combined pattern yields one capture per header still to come, plus the final one |
| Extractor.FindHeaderFirst | main.py:73-80 | the lazy capture ends at the first position where the next header and all later ones match, and the result is the match found there |
| Extractor.FindHeaderNone | main.py:73-80 | where the next header and the later ones match nowhere, the combined pattern fails |
| PrimaryLayout.CaptureEndsHere | main.py:73-80 | a header match whose continuation succeeds ends the lazy capture there, with the text before it as the capture |
| Extractor.Primary | main.py:73-80 | `pattern.search` gives exactly four captures or none |
| Extractor.FirstMark | main.py:93 | the lookahead `(?=\n<label>)` stops at the first newline followed by the next label, and at no earlier one |
| Extractor.ExtractSection | main.py:91-97 | `extract_section` always returns a trimmed text |
| Extractor.FindSectionFirst | main.py:96 | `re.search` of the fallback regex settles on the leftmost position where it matches |
| Extractor.FindSectionNone | main.py:96 | where the fallback regex matches at no position, the search fails |
| Extractor.ExtractSectionFirst | main.py:91-97 | `extract_section` returns the stripped capture of the leftmost match, and `""` when the regex matches nowhere |
| Extractor.Fallback | main.py:89-104 | the fallback tier never fails and returns four trimmed fields |
| Extractor.ParseAiOutput | main.py:71-104 | all four fields are present and trimmed; when the combined pattern does not match, the result is the fallback's |
| FallbackFacts.CaptureFrame | main.py:93-96 | a fallback capture of section 1-3 exhibits its start label and a later newline followed by the next label |
| FallbackFacts.SectionFound | main.py:93-96 | a fallback match exhibits a start line (label, optional colon, newline), and for sections 1-3 the next label after it |
| FallbackFacts.SectionNeedsNextLabel | main.py:91-102 | a section 1-3 field is `""` unless its header line is followed, later, by a newline and the next label |
| FallbackFacts.LastSectionNeedsStartLine | main.py:95-103 | the strategy field is `""` unless its label, optional colon and a newline occur |
| FallbackFacts.NoteBlocksFallbackStart | main.py:95-103 | a fourth label followed by ` (` cannot start section 4 in the fallback |
| FallbackFacts.NoLabelNoHeader | main.py:73-80 | without label `j` anywhere, the combined pattern never gets past header `j` |
| FallbackFacts.MissingLabelMeansFallback | main.py:79-89 | with any one label missing, the combined pattern fails and the fallback decides the result |
| FallbackFacts.MissingThirdHeader | main.py:91-102 | without the third header, the dream interpretation and the mindset insight are both `""`, while sections 1 and 4 are extracted as usual |
| FallbackFacts.NotedFourthHeaderLostInFallback | main.py:95-103 | if the combined pattern fails and every fourth label carries a note (as the prompt at main.py:57 asks), the strategy is `""` |
| FallbackFacts.EmptyReply | main.py:89-104 | the empty reply of a failed model call (main.py:65-67) parses to four empty fields |
| PrimaryLayout.LabelInLine | main.py:74-77 | `k. <title>`, in any letter case, matches the numbered label |
| PrimaryLayout.TailEndsLine | main.py:74-76 | an optional colon, optional closing `**` and a newline end a header line |
| PrimaryLayout.HeaderLineMatches | main.py:74-78 | a well-styled header line (optional `**`, any letter case, optional colon, note only on header 4) is recognised, and ends exactly at its newline |
| PrimaryLayout.CaptureStrips | main.py:82-87 | a section text followed by its newline strips back to the section text |
| PrimaryLayout.NoHeaderInSection | main.py:73-80 | with each label occurring once, the lazy capture cannot stop before the header line that actually carries the next label |
| PrimaryLayout.FindAnyHeader | main.py:73-80 | where every header match up to a position ends at the same place, the search finds it and captures the text before it |
| PrimaryLayout.SectionsAfter | main.py:73-88 | from any header onwards, the captures of a well-formed reply strip to the section texts that follow |
| PrimaryLayout.PrimaryReadsJoined | main.py:73-88 | a well-formed run of header lines and sections after any preamble parses to exactly its section texts |
| FallbackLayout.StartLine | main.py:93-95 | a plain header line is the fallback's start line: label, optional colon, newline |
| FallbackLayout.MarkOnlyAt | main.py:93 | with each label once, the lookahead stops at the newline before the next label |
| FallbackLayout.SearchSettles | main.py:96 | with each label once, the search settles on the section's own label |
| FallbackLayout.SectionBetween | main.py:91-97 | a section 1-3 between its plain header line and a newline with the next label is returned exactly |
| FallbackLayout.LastSectionFrom | main.py:91-97 | the strategy after a plain fourth header line is returned exactly, to the end of the reply |
| FallbackLayout.FallbackReadsLayout | main.py:71-104 | on a well-formed reply with plain headers the fallback reads the same four sections as the combined pattern |
| FallbackLayout.MissingThirdHeaderLayout | main.py:89-104 | a laid-out reply without header 3 parses to the reflection, two empty fields and the strategy |
| PrimaryLayout.PrimaryReadsLayout | main.py:73-88 | main theorem: text before header 1 is ignored, each field is the section text between its header and the next, and the strategy runs to the end, for each header style covered (bold or not, any letter case, optional colon, optional note on header 4) |
| Store.BelowIrreflexive | main.py:145 | no date sorts before itself |
| Store.BelowTransitive | main.py:145 | the text order of `ORDER BY date` is transitive |
| Store.BelowTotal | main.py:145 | any two different dates are ordered one way or the other |
| Store.DescendingHasNoRepeats | main.py:145 | a strictly descending listing names no date twice, as `DISTINCT` promises |
| Store.DescendingUnique | main.py:145-146 | only one strictly descending listing has a given set of dates, so the listing is fully determined by the table |
| Store.Greatest | main.py:145 | the first date of `ORDER BY date DESC` is in the set and every other date sorts below it |
| Store.Lookup | main.py:133-139 | a row is found exactly when the date is stored |
| Store.Saved | main.py:112-124 | after a save, the stored dates are the old ones plus the saved date |
| Store.SaveThenLoad | main.py:112-139 | saving eight values for a date and then loading it gives back exactly those values |
| Store.SaveOverwrites | main.py:115-123 | a second save for the same date replaces all eight columns of the first |
| Store.SaveKeepsOthers | main.py:112-124 | saving one date leaves every other date's row unchanged |
| Store.SaveListsDate | main.py:112-124 | a date is stored after a save exactly when it was saved now or stored before |
| Store.EntryStore.constructor | main.py:19-33 | a new database holds no entries |
| Store.EntryStore.SaveEntry | main.py:108-127 | the table afterwards is the old one with the row for the date inserted or replaced in all eight columns |
| Store.EntryStore.LoadEntry | main.py:129-139 | returns the stored row for the date, or nothing when there is none |
| Store.EntryStore.GetAllDates | main.py:141-148 | lists exactly the stored dates, in strictly descending order, none twice |
| Session.AfterSelect | main.py:166-177 | `loaded_date` changes exactly when a non-empty date other than the loaded one is selected and a row for it exists; otherwise the session is unchanged |
| Session.SelectLoadsEntry | main.py:166-177 | selecting a different stored date shows that row in all eight fields and sets `loaded_date` to it |
| Session.FirstRunLoadsSelection | main.py:166-177 | on the first run, any stored date the select box holds is loaded at once |
| Session.SelectKeepsSession | main.py:166 | selecting nothing, the empty date or the loaded date changes nothing |
| Session.SelectMissingKeepsSession | main.py:167-168 | selecting a date with no row changes nothing |
| Session.SelectIdempotent | main.py:166-177 | rerunning the selection step with the same selection and table loads nothing more |
| Session.EditsSurviveRerun | main.py:166-185 | text typed after a load survives the next rerun on the same date |
| Session.SessionState.constructor | main.py:233-236 | a new session has `loaded_date` set to `""`, empty text keys and no output keys |
| Session.SessionState.SelectDate | main.py:166-177 | the session afterwards is the one the selection step specifies |
| Session.SessionState.ShowSections | main.py:197-200 | the four output keys hold the parsed sections; `loaded_date` and the text keys are unchanged |
| App.Generate | main.py:188-212 | refused exactly when a non-empty selected date differs from today, and then nothing changes; otherwise the outputs are the parsed reply, the entry is saved under today, and every other date's row is unchanged |
| App.PastDatesAreReadOnly | main.py:188-212 | with a past date selected the button is refused, and a generation for today keeps every other date's row as it was |
| App.NewDayRefused | main.py:158-190 | on a day with no entry yet, once any entry exists, the button is refused whatever the select box holds |
| App.EmptyTableAllowed | main.py:158-190 | with nothing saved, the select box is empty and the button goes ahead |
| App.ShownIsSaved | main.py:181-212 | after a generation the session shows exactly the row saved for today |
| App.SavedSectionsTrimmed | main.py:192-212 | every section a generation saves is trimmed |
| App.FailedCallSavesEmptySections | main.py:192-212 | a failed model call (main.py:65-67) still saves today's entry, with four empty sections |
| App.TodayHeadsListing | main.py:158-163 | once today's entry is saved and today is the latest date, today heads the sidebar's listing |
| App.RerunShowsSavedEntry | main.py:166-212 | the rerun after a generation, with today selected, reloads exactly what was typed and generated |

## Left out

- Streamlit rendering and widgets (page setup, titles, text areas, select box, messages, the display of the outputs): they are user interface. Widget values are method parameters, and the select box's choice is an optional date.
- The Together client, the model name and the prompt: this is a network call. Its reply is the parameter `reply` of `App.Generate`, and `""` stands for a failed call.
- SQLite plumbing: connecting, committing, closing, `create_database` and its console output, and the `AUTOINCREMENT` id column. The store's map has the same meaning as the table.
- SQLite errors (a locked or unreadable database file) are not modelled. Every save and load succeeds.
- `datetime.now()`: today's date is the parameter `today`. That it is an ISO `%Y-%m-%d` date, whose text order is date order, is a precondition of `App.TodayHeadsListing` (today is the latest date) rather than a derived fact.
- Environment loading and API keys: they are configuration.
- Several browser sessions writing the same database file at once: concurrency is out of scope for a sequential model.
- Store.Below: SQLite's BINARY collation compares UTF-8 bytes. The model compares code points, which orders texts the same way.
- Store.EntryStore.GetAllDates: the sort happens inside SQLite. It is modelled as picking the greatest remaining date each time, and `Store.DescendingUnique` shows that any correct sort gives the same list.
- Session.SessionState: the four text-area keys are bound to their widgets, so Streamlit stores the typed text in them. The model does not write them on generation. It takes the typed text as parameters, and `Session.EditsSurviveRerun` states the effect of an edit.
- Session.View: a text key that was never set reads as `""`, as `st.session_state.get(key, "")` does. Absent and empty text keys are therefore not told apart. Output keys keep the difference, because only a set output is displayed.
- Extractor.HeaderHere: the combined pattern tries only the last line end of each header's decoration. An earlier line end cannot change the match, because the next header's lead absorbs what lies between. That argument is not itself proved.
- Extractor: a reply with no text content (`message.content` being `None`) is not modelled; `reply` is always a text.
- PrimaryLayout.PrimaryReadsLayout: the theorem asks for every section to be non-empty and trimmed, for it not to begin with `:`, `*` or `(` or end with `*`, and for each numbered label to occur once. It also fixes the spacing: exactly one newline between a section and the next header (so the common blank line between sections is not covered), exactly one space after `k.`, the colon directly after the title or note, and `**` only as a matched pair around the whole header. Replies outside this shape are covered only by the general facts about `Extractor.ParseAiOutput`.
- FallbackLayout.FallbackReadsLayout, FallbackLayout.MissingThirdHeaderLayout: the same layout restrictions apply, and the header lines must also be plain (no `**`, no note), since the fallback's lookahead needs the next label right after a newline.
