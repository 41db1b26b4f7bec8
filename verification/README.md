# AthletikPlus training-plan store, modelled in Dafny

AthletikPlus is a Streamlit app for coaches. This project models the part of
`app.py` that keeps training plans:

- the plan file `training_plans.json`, read by `load_data` and written by `save_data`;
- the handlers on the "Trainingspläne" page: create a plan, toggle its "Aktiv" status,
  collect exercises for the next unit, save a unit, and delete a unit;
- two read-only views: the order in which a plan's unit cards are shown, and the
  dashboard's "Das steht heute an" list.

Files:

| file | module | contents |
|---|---|---|
| `wrappers.dfy` | `Wrappers` | `Option` and `Result` |
| `text.dfy` | `Text` | `str.strip()`, splitting on a character, Python's `str` ordering |
| `calendar.dfy` | `Calendar`, `CalendarExamples` | Gregorian dates; `strptime(…, "%d.%m.%Y")`; `fromisoformat` / `isoformat` for `YYYY-MM-DD`; `strftime("%d.%m.%Y")` |
| `json.dfy` | `Json` | a parsed JSON value |
| `plans.dfy` | `Plans` | the store, the session's pending exercise lists, and every page handler as a pure transition |
| `persistence.dfy` | `Persistence` | JSON encoding of the store, `save_data`, and `load_data` (as written and corrected) |
| `views.dfy` | `Views` | the display order of unit cards; today's units on the dashboard |

Each handler is a function from the state to `Success(new state)` or
`Failure(error)`. The error is the message the page shows, and on failure the
state is unchanged. The store's types describe the values the app itself
writes:

- a plan holds a list of units;
- a unit has optional `datum` and `schwerpunkt` texts and an `uebungen` list;
- an exercise is the four-key record the exercise form builds, or a bare name.

A list element that is not a JSON object is kept as a `Foreign` unit. The
dashboard skips such units (app.py:322). On the plans page the sort key's
`.get` raises on them before the `isinstance` test at app.py:541 is reached.

Behaviour of `app.py` worth noting:

- A plan name is refused only when it is empty. A name of spaces is accepted (app.py:410).
- The status toggle writes the status only when the shown value differs from the stored one (missing means active). (app.py:426-429).
- Saving a unit requires a non-empty focus as well as a date (app.py:498).
- Only two exercise shapes occur in `app.py`: a bare string, and the four-key record. No `übung`/`uebung` shape is read (app.py:561-583).
- The `DD.MM.YYYY` round trip holds for zero-padded entries only. strptime also accepts `1.2.2026`, which is shown again as `01.02.2026`. See `Calendar.DottedEntryRoundTrip` and `CalendarExamples.SingleDigitFields`.
- The unit cards are sorted by the raw `datum` text. A missing date counts as `""` and so sorts last; no date is parsed for the sort (app.py:536-538).

## Model

| member | source | states |
|---|---|---|
| `Persistence.LoadAsWritten` | app.py:199-214 | A missing or unreadable file gives empty plans and statuses. So does a top-level value that is not an object, because `data.keys()` raises inside the `try`. An object without a `plans` key is read as the legacy plan table, with every plan marked active. A wrapped file without `statuses` gets empty statuses. Every loaded unit object is read as a record. |
| `Persistence.Load` | app.py:203-208 | The corrected form test: only an object whose `plans` value is itself an object is taken as the wrapped form. The other load cases are unchanged. |
| `Persistence.WrappedLoadsVerbatim` | app.py:203-205 | A wrapped document loads to exactly its `plans` and `statuses`, with statuses defaulting to empty. Other top-level keys are ignored. This holds for both loads. |
| `Persistence.LegacyLoads` | app.py:206-208 | The corrected load reads every legacy bare file as exactly its plans, each marked active. |
| `Persistence.LegacyLoadsAsWritten` | app.py:203-208 | The load as written reads a legacy bare file correctly if and only if no plan in it is named `plans`. |
| `Persistence.LegacyPlanNamedPlans` | app.py:203 | The legacy file `{"plans": []}` is misread by the load as written. The corrected load reads it as one empty, active plan. |
| `Persistence.Save` | app.py:229-234 | The file always holds the wrapped form: exactly the keys `plans` and `statuses`, which hold objects keyed by the store's plan names and status names. |
| `Persistence.SaveLoadRoundTrip` | app.py:199-205 | Loading what save wrote gives back the same plans and statuses, under both loads. |
| `Persistence.UnitRoundTrip` | app.py:511-515 | A unit object written to JSON reads back as the same unit. |
| `Persistence.ExerciseRoundTrip` | app.py:466-471 | An exercise written to JSON reads back as the same exercise. |
| `Persistence.PlansRoundTrip` | app.py:229-232 | The plan table written to JSON reads back as the same table. |
| `Persistence.StatusesRoundTrip` | app.py:229-233 | The status table written to JSON reads back as the same table. |
| `Persistence.DecodeUnit` | app.py:540-541 | Reading a unit never yields a `Foreign` unit that is an object. A value that is not an object is kept as it is. |
| `Plans.CreatePlan` | app.py:407-419 | Succeeds if and only if the name is non-empty and not taken. An empty name is reported before a duplicate. On success the store gains exactly that plan, with no units and active status. Every other plan, status and pending list is kept. |
| `Plans.CreateTwiceRejected` | app.py:412-413 | Creating the same plan again is refused as a duplicate. |
| `Plans.StatusOf` | app.py:426 | `plan_statuses.get(plan_name, True)`: a plan reads as inactive exactly when its status entry exists and is false. |
| `Plans.SetStatus` | app.py:426-431 | Afterwards the plan's status as the page reads it (missing means active) equals the toggle. Only a changed toggle writes the status table. Plans, other statuses and pending lists are untouched. |
| `Plans.AddExercise` | app.py:464-475 | Fails if and only if the exercise name is empty. On success it appends exactly the four-field record to that plan's pending list. Other plans' lists and the store are untouched. |
| `Plans.RemoveExercise` | app.py:485-490 | Succeeds if and only if the index is inside the plan's pending list. On success it removes exactly that element and shifts the later ones down. Nothing else changes. |
| `Plans.ClearExercises` | app.py:525-528 | The plan's pending list becomes empty. Other lists and the store are untouched. |
| `Plans.SaveUnit` | app.py:497-523 | A missing date or focus is reported first, then an empty exercise list, then a date that does not parse. A plan absent from the store raises inside the same `try` and so also shows the date message. Success happens if and only if all four conditions hold, and the new state is then that of `Plans.AppendUnit` for the parsed date. |
| `Plans.SaveIsoDated` | app.py:497-518 | With a focus entered and exercises collected, a unit dated with the ISO text of any real day is saved, giving exactly the `Plans.AppendUnit` state. |
| `Plans.AppendUnit` | app.py:511-518 | One unit is appended to the plan: the ISO text of the date, the focus and the pending exercises. The plan's pending list is reset. Every other plan, every status and every other pending list is kept, and the store stays well formed. |
| `Plans.DeleteUnit` | app.py:553-556 | Succeeds if and only if the plan exists and the stored index is in range. On success exactly the unit at that stored position is removed: length one less, prefix kept, suffix shifted, the same multiset minus that unit. Other plans, statuses and pending lists are untouched. |
| `Plans.RemoveAt` | app.py:489 | `list.pop(i)`: one element shorter, prefix kept, suffix shifted, same multiset minus the popped element. |
| `Text.Strip` | app.py:506-508 | `str.strip()`: the result is the contiguous middle of the text. Everything cut off is whitespace in Python's `isspace` sense, and the result neither starts nor ends with whitespace. |
| `Text.StripKeeps` | app.py:505-508 | Stripping keeps every non-space character. So the branch test `"." in unit_datum` on the raw text agrees with the stripped text that is parsed. |
| `Text.SplitThree` | app.py:506 | Three separator-free fields joined by a separator split back into those three fields. |
| `Text.BelowTotal` | app.py:536-538 | Python's `str` `<`, which the reversed sort uses, orders any two different strings one way or the other. |
| `Text.BelowTransitive` | app.py:536-538 | Python's `str` `<` is transitive. |
| `Calendar.ParseDateText` | app.py:505-508 | A text containing `.` is read exactly as `%d.%m.%Y` reads the stripped text, and any other text exactly as `fromisoformat` reads it. Whatever is accepted is a real calendar date in years 1 to 9999. An accepted ISO entry is already in canonical `YYYY-MM-DD` form. |
| `Calendar.IsoEntryAccepted` | app.py:505-508 | The date field accepts the ISO text of every real date and reads it as that date. |
| `Calendar.DottedEntryAccepted` | app.py:505-506 | The date field accepts every real date typed as `dd.mm.yyyy`, in every day and month spelling strptime allows, and reads it as that date. |
| `Calendar.ParseDotted` | app.py:506 | `strptime(…, "%d.%m.%Y")`: whatever it accepts is a real date and contains a `.`. Its exact language is stated by `Calendar.ParseDottedSound` and `Calendar.ParseDottedComplete`. |
| `Calendar.ParseIso` | app.py:508 | `fromisoformat` on `YYYY-MM-DD`: whatever it accepts is a real date and contains a `-`. `Calendar.IsoRoundTrip` and `Calendar.IsoCanonical` state that it accepts exactly the canonical texts. |
| `Calendar.FormatDotted` | app.py:548 | `strftime("%d.%m.%Y")` on a stored date: ten characters with `.` at positions 2 and 5, read back by `%d.%m.%Y` as the same date. |
| `Calendar.ParseDottedSound` | app.py:506 | Whatever `%d.%m.%Y` accepts is a real date, written as `dd.mm.yyyy` with a zero-padded or single-digit day and month and a four-digit year. |
| `Calendar.ParseDottedComplete` | app.py:506 | Every real date, in every day and month spelling strptime allows, is accepted and read back as that date. |
| `Calendar.ParseDottedFields` | app.py:506 | A text with well-formed fields is accepted if and only if it names a real day of the calendar. |
| `Calendar.ParsePaddedDotted` | app.py:506 | A zero-padded `DD.MM.YYYY` with in-range fields is accepted if and only if the day exists. |
| `Calendar.FormatIso` | app.py:512 | `date.isoformat()`: ten characters, `-` at positions 4 and 7, digits elsewhere. |
| `Calendar.IsoRoundTrip` | app.py:508-512 | The stored ISO text of a date reads back as that date. |
| `Calendar.IsoCanonical` | app.py:508 | The ISO reader accepts only the canonical text of the date it returns. |
| `Calendar.DottedEntryRoundTrip` | app.py:505-514 | A zero-padded `DD.MM.YYYY` entry is stored as an ISO text that reads back as the same date, and shown again as `%d.%m.%Y` it reproduces the stripped entry. |
| `Calendar.ValueOfPad` | app.py:512 | Reading a zero-padded number gives the number back. |
| `Calendar.PadOfValue` | app.py:506 | Zero-padding a digit string's value to the string's length gives the string back. |
| `CalendarExamples.NoThirtyFirstOfFebruary` | app.py:506 | `31.02.YYYY` is rejected in every year. |
| `CalendarExamples.LeapDayRule` | app.py:506 | `29.02.YYYY` is accepted exactly in Gregorian leap years. |
| `CalendarExamples.SingleDigitFields` | app.py:506 | A day and month from 1 to 9 may each be written as one digit (as in `1.2.2026`), and the text is read as that date. |
| `Views.DisplayOrder` | app.py:536-538 | Defined if and only if every unit is an object; otherwise `.get` raises. When defined, every stored unit appears exactly once with its stored position. Later date texts come first, a missing date counts as `""`, and equal dates keep stored order, because the reversed sort is stable. |
| `Views.Insert` | app.py:536-538 | Inserting an entry into a list in display order keeps it in display order and adds exactly that entry. |
| `Views.SortEntries` | app.py:536-538 | The result is in display order and is a permutation of the input. |
| `Views.NotShownBeforeTransitive` | app.py:536-538 | The display order is transitive, so a sorted list is ordered pairwise. |
| `Views.DisplayedEntriesAreStored` | app.py:540-555 | Each card carries the position at which its unit is stored, which is the index the bin button pops. |
| `Views.UndatedLast` | app.py:536-538 | In display order, every unit after one without a date is also without a date. |
| `Views.DeleteShownCard` | app.py:553-556 | The bin button on any shown card succeeds and removes exactly that card's unit from the stored list. |
| `Views.UnitsForToday` | app.py:318-323 | The dashboard loop yields exactly the reference list: plans in dict order, units in stored order, one `plan: focus` line per unit object dated today (focus defaults to `""`). |
| `Views.PlanLinesForToday` | app.py:320-323 | The inner loop yields one plan's lines for today in stored order. |
| `Views.TodayComplete` | app.py:318-323 | Every unit dated today, in any plan, has its line on the dashboard. |
| `Views.TodaySound` | app.py:318-323 | Every dashboard line comes from a unit dated today in one of the plans. |
| `Views.SavedUnitShowsToday` | app.py:318-323 | A unit just saved with today's date shows up on the dashboard as `plan: focus`. |

## Left out

- JSON text: the file is modelled after `json.load`, as missing, unreadable, or a parsed value. JSON numbers other than integers are not modelled.
- Values of shapes the app never writes are not modelled; reading them gives `Unsupported`. The app would keep them as they are and tolerate or fail on them later. Examples: a unit field of the wrong type, an exercise that is neither a string nor the four-key record, and a plan or status value of the wrong type.
- `Persistence.DecodeUnit`: a unit object's keys other than `datum`, `schwerpunkt` and `uebungen` are dropped, and a missing `uebungen` is read as an empty list. The app keeps such objects whole.
- `Calendar.ParseDateText`: `fromisoformat` is modelled for the date-only `YYYY-MM-DD` form only. Its week-date form, basic form (`20260201`) and time parts are read as failures here.
- `Calendar.ParseDateText`: strptime and `fromisoformat` accept non-ASCII Unicode digits (as in `\d`). Only ASCII digits are modelled.
- Lone surrogates: a Python `str` read by `json.load` may hold a lone surrogate code point, but Dafny's `char` is a Unicode scalar value and cannot, so such texts are not modelled.
- `Plans.AddExercise`: the `Sätze` widget bounds sets to 1..20, so the model requires that range.
- `Plans.DeleteUnit`, `Plans.RemoveExercise`: an out-of-range `pop` raises and would abort the page. It is modelled as an error result, since the buttons only exist for present items.
- The displayed date (`pd.to_datetime` and `strftime`, with `?` for unreadable dates) is modelled only for dates the app stores, by `Calendar.FormatDotted`. pandas' own date range is not modelled.
- Dict iteration order: Dafny maps are unordered, so the dashboard takes the plans' key order as a parameter, and today's date as a `Date` instead of reading the clock.
- Writing the file (`save_data`) is modelled as the document it writes. Failing writes and the other files it writes (athletes CSV, performance data, settings) are left out.
- Reruns, widgets, Streamlit session keys other than the pending exercise lists, and the rendering of exercises on the cards are user interface and left out.
- The athletes table, performance data, settings and login pages are outside the plan store and left out.

## Findings

| source | as written | input that shows it | evidently intended | confidence | as-written member | corrected member |
|---|---|---|---|---|---|---|
| app.py:203 | the wrapped form is recognised by `"plans" in data` alone | the legacy bare file `{"plans": []}`, holding one plan named `plans`: the list `[]` is taken as the whole plan table, and the plan is lost | a legacy file loads as its plans, every one active | not executed | `Persistence.LegacyPlanNamedPlans` | `Persistence.LegacyLoads` |
