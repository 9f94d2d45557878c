# Smart Reminder Assistant — the reminder core, in Dafny

The assistant keeps reminders in a document store. The collection
`reminders_by_date` has one document per date key (`YYYY-MM-DD`). Each document
holds a `reminders` array of records `{text, timestamp, type}`. On top of the
store sit two pieces of logic:

- a daily planner summary for today's bucket;
- the "Ask Gemini" handler. It finds a date token in a free-text question, reads
  that date's bucket and composes the prompt for the language model.

This project models that core of `app.py` and proves what it does.

- `text.dfy` (module `Text`): the Python string operations the core relies on.
  These are `sep.join`, `str.strip()` (with Python's exact `isspace` set) and the
  order `<` on `str`. That order is proved to be a strict total order.
- `date_token.dfy` (module `DateToken`): `extract_date_from_input`, the leftmost
  match of `\d{4}-\d{2}-\d{2}`. The match is not checked as a calendar date.
  The module also proves that string order on `DDDD-DD-DD` keys is
  (year, month, day) order.
- `reminder_store.dfy` (module `ReminderStore`): the collection as a class
  `ReminderCollection` with a field `docs: map<string, Document>`.
  - A `Document` whose `reminders` is `None` is a document without that field.
  - `SaveReminder` is the read-then-`update`/`set` of `save_reminder`. It is
    proved equal to the pure transition `AfterSave`, which applies Firestore's
    `ArrayUnion` to the bucket.
  - `RemindersForDate` is `get_reminders_for_date`.
  - `GetAllReminders` is the loop over the streamed documents followed by
    `sorted`. The sort is an insertion sort by key.
- `assistant.dfy` (module `Assistant`):
  - `GenerateDailySummary` is the `+=` loop followed by `strip()`. It is proved
    equal to the closed form `DailySummary`.
  - `AskGeminiPrompt` returns either the prompt to send or the error to show.
- `scenarios.dfy` (module `Scenarios`): particular inputs worked through. These
  are the date token in a sentence, a question about a date with an empty bucket,
  a question with no date, a one-record summary, and the order of 2024-12-31 and
  2025-01-02 in the listing.

A question without a date token is not sent to the model; it produces the error
"Could not find a valid date in your query." (app.py:149-150).

## Model

| member | source | states |
|---|---|---|
| `Text.Join` | app.py:143 | joining no parts gives the empty string |
| `Text.JoinSnoc` | app.py:103-104 | appending one part to a join adds the separator and then that part; with no earlier parts the join is the part alone |
| `Text.JoinStartsWithFirstPart` | app.py:143 | a non-empty join begins with its first part |
| `Text.JoinEndsWithLastPart` | app.py:143 | a non-empty join ends with its last part, so its last character is that part's last character |
| `Text.JoinContainsParts` | app.py:143 | every part of a `"\n".join` occurs as a substring of the joined text |
| `Text.TrimLeft` | app.py:105 | the result is a suffix of the input, every character removed is whitespace, and the result does not start with whitespace |
| `Text.TrimRight` | app.py:105 | the result is a prefix of the input, every character removed is whitespace, and the result does not end with whitespace |
| `Text.Strip` | app.py:105 | `strip()` returns a substring of its input, and returns the input itself when it starts and ends with non-whitespace |
| `Text.StripLeavesNoSpaceAtEnds` | app.py:105 | what `strip()` returns neither starts nor ends with whitespace |
| `Text.StripTrailingNewline` | app.py:105 | when a text starts and ends with non-whitespace, `strip()` of that text plus `"\n"` removes exactly the final newline |
| `Text.LexLess` | app.py:95 | a proper prefix sorts before the longer string, and a string never sorts before one of its own prefixes |
| `Text.LexLessAtFirstDifference` | app.py:95 | when two strings agree up to index `k` and differ there, the characters at `k` decide the order |
| `Text.LexIrreflexive` | app.py:95 | no key sorts before itself |
| `Text.LexTransitive` | app.py:95 | the key order used by `sorted` is transitive |
| `Text.LexTotal` | app.py:95 | any two distinct keys are ordered one way or the other |
| `Text.LexAsymmetric` | app.py:95 | two keys are never ordered both ways |
| `DateToken.SearchFrom` | app.py:87 | the scan returns `None` only when no window at or after the start matches `DDDD-DD-DD`; otherwise it returns the first matching position |
| `DateToken.ExtractDateFromInput` | app.py:86-88 | `None` exactly when no index starts a `DDDD-DD-DD` window; otherwise a 10-character date-shaped substring taken at the leftmost matching index |
| `DateToken.FirstDateIsUnique` | app.py:87 | the leftmost match position is unique |
| `DateToken.ExtractsFirstDate` | app.py:86-88 | whenever `i` is the leftmost match, the result is the window at `i` |
| `DateToken.DateAfterDigitFreePrefix` | app.py:86-88 | a date-shaped word that follows a digit-free prefix is the token returned, whatever text follows it |
| `DateToken.ShapeIsAcceptedUnchecked` | app.py:87-88 | every `DDDD-DD-DD` text is returned as it stands, with no calendar validation |
| `DateToken.NoCalendarValidation` | app.py:87-88 | `9999-99-99` is accepted |
| `DateToken.DateOrderIsChronological` | app.py:95 | for date-shaped keys, string order equals (year, month, day) order, so the sorted listing is chronological |
| `ReminderStore.RemindersForDate` | app.py:78-84 | the stored list when the document exists with a `reminders` field; `[]` when the document is missing or lacks the field (never an error) |
| `ReminderStore.ArrayUnion` | app.py:67 | keeps every earlier element in order as a prefix; adds `x` at the end exactly when no equal element is present; the elements are the old ones plus `x` |
| `ReminderStore.AfterSave` | app.py:58-69 | a save adds only the saved date's key; every other document is unchanged; the saved date now has a `reminders` field |
| `ReminderStore.SaveCreatesBucket` | app.py:66-69 | saving on a date with no document creates a bucket holding exactly the new record |
| `ReminderStore.SaveThenGet` | app.py:58-84 | after a save, reading the date gives the earlier list followed by the new record, or the earlier list unchanged when an equal record was present |
| `ReminderStore.SaveLeavesOtherDates` | app.py:58-84 | a save on one date does not change what any other date reads |
| `ReminderStore.SaveTwiceKeepsOrder` | app.py:58-84 | two distinct records saved in turn on an empty date read back as `[r1, r2]` |
| `ReminderStore.InsertByKey` | app.py:95 | inserting an entry with a new key into a strictly ascending list keeps it strictly ascending and adds exactly that entry |
| `ReminderStore.SortedItems` | app.py:95 | `sorted(d.items())` yields each key of the dict once, in strictly ascending order, each with its own value |
| `ReminderStore.ReminderCollection.constructor` | app.py:35-36 | the handle starts from the collection's current documents |
| `ReminderStore.ReminderCollection.SaveReminder` | app.py:58-69 | the new state is `AfterSave` of the old one. The update branch uses `ArrayUnion` on the existing field. The set branch creates `[new_reminder]`. The record carries the given text, timestamp and type (default `"manual"`) |
| `ReminderStore.ReminderCollection.GetAllReminders` | app.py:90-95 | every document id exactly once, in strictly ascending order, each paired with its `reminders` list or `[]` |
| `Assistant.ReminderLine` | app.py:104 | the line for a record starts with `"- "` followed by its text, ends with `)`, and is 5 characters longer than the text and type together |
| `Assistant.ReminderLines` | app.py:143 | one line per record, in stored order, the `i`-th line rendering the `i`-th record |
| `Assistant.DailySummary` | app.py:101-106 | an empty bucket gives exactly "You have no reminders scheduled for today."; otherwise the text starts with the dated header, is longer than it, and ends with the `)` of the last line |
| `Assistant.GenerateDailySummary` | app.py:98-106 | the loop-built, stripped text equals `DailySummary`. For an empty bucket that is exactly the fixed sentence. Otherwise it is the header followed by the lines `- <text> (<type>)` in stored order, joined by `"\n"` with no trailing newline |
| `Assistant.SummaryStep` | app.py:103-104 | one turn of the loop, appending a line and `"\n"`, extends the joined lines by that line |
| `Assistant.StrippedSummary` | app.py:105 | `strip()` of the loop's text removes only the newline after the last line, which gives `DailySummary` |
| `Assistant.DailySummaryListsEveryReminder` | app.py:101-105 | a non-empty summary starts with the dated header, and each record's line appears after it |
| `Assistant.DatePrompt` | app.py:142-146 | an empty bucket gives exactly "No reminders found for <d>."; otherwise the prompt starts with "For <d>, here are your reminders:\n", ends with "\nCan you summarize or organize them?", and has the lines between them |
| `Assistant.AskGeminiPrompt` | app.py:139-150 | an error exactly when the query has no date token, and then the message is exactly "Could not find a valid date in your query."; otherwise the prompt is built from the leftmost token and that date's bucket |
| `Assistant.DatePromptContents` | app.py:141-146 | every prompt names the date; with no records it is exactly "No reminders found for <d>."; otherwise every record's line occurs in it |
| `Assistant.LineInPrompt` | app.py:143-144 | the line of each record of a non-empty bucket occurs in the prompt |
| `Scenarios.DateTokenInQuestion` | app.py:86-88 | "Ask Gemini about 2025-07-13 tasks" yields "2025-07-13" |
| `Scenarios.NoDateTokenInQuestion` | app.py:86-88 | "What's up today?" yields no token |
| `Scenarios.AskAboutEmptyDate` | app.py:139-146 | a question about 2025-07-13 on an empty store yields the prompt "No reminders found for 2025-07-13." |
| `Scenarios.EmptyDatePromptText` | app.py:146 | the empty-bucket prompt for 2025-07-13 |
| `Scenarios.AskWithoutDate` | app.py:149-150 | a question without a date produces the error message |
| `Scenarios.SummaryOfOneReminder` | app.py:101-105 | one manual "Buy milk" record gives the dated header followed by the line `- Buy milk (manual)` |
| `Scenarios.ListingPutsEarlierDateFirst` | app.py:95 | in the sorted listing, 2024-12-31 comes before 2025-01-02 |

## Left out

- The Streamlit interface (app.py:109-166) is presentation only: titles, inputs, buttons, and the display of results and of the listing. Only the prompt-building logic of the Ask-Gemini handler is modelled.
- `listen()` (app.py:39-49) captures microphone audio and calls a foreign speech recogniser. The text it returns is simply the `text` argument of `SaveReminder`.
- `setup_vertex` and `send_to_gemini` (app.py:26-32) are a remote model call. The model stops at the prompt that would be sent (`AskOutcome.SendPrompt`).
- The Firestore client (app.py:35-36) is network I/O. It is replaced by the in-memory map `ReminderCollection.docs`. Store failures (unreachable service, permission errors) are not modelled. The order in which `stream()` yields documents is left open (an arbitrary choice), since the result is sorted anyway.
- `datetime.utcnow()`, `date.today()` and `strftime` (app.py:63, 99, 117) come from the clock. The timestamp is the parameter `now: Instant`, whose field the model leaves uninterpreted. Today's date key is the parameter `today`.
- The read-modify-write between `doc_ref.get()` and `update`/`set` (app.py:59-69) is not atomic. Concurrent writers on one date can lose updates. The model is sequential, so this race is not represented.
- `DateToken.IsDigit` accepts only ASCII `0`-`9`. Python's `\d` also matches every other Unicode decimal digit, so the model finds no token in text whose only dates use such digits.
- Documents are modelled as holding only the `reminders` field. Other fields a document might have are not represented; `update` would preserve them and the core never reads them.
- Records written by other programs and lacking `text` or `type` would make the Python renderers raise `KeyError`. In the model every record has both fields.
- `speak(summary)` (app.py:157) calls a function that is commented out (app.py:52-55), so that line would raise `NameError`. It belongs to the interface and is not modelled. Neither are the unused `schedule`/`threading` imports nor the "Test Reminder Fetch" button (app.py:130-133).
