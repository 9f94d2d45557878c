/** Worked cases of the assistant's behaviour on particular inputs. */
module Scenarios {
  import opened Optional
  import opened Text
  import opened DateToken
  import opened ReminderStore
  import opened Assistant

  lemma DateTokenInQuestion()
    ensures ExtractDateFromInput("Ask Gemini about 2025-07-13 tasks") == Some("2025-07-13")
  {
    var p := "Ask Gemini about ";
    assert forall j :: 0 <= j < |p| ==> !IsDigit(p[j]);
    assert p + "2025-07-13" + " tasks" == "Ask Gemini about 2025-07-13 tasks";
    DateAfterDigitFreePrefix(p, "2025-07-13", " tasks");
  }

  lemma NoDateTokenInQuestion()
    ensures ExtractDateFromInput("What's up today?") == None
  {
  }

  /** A question about a date with no reminders yields the "no reminders" prompt. */
  lemma AskAboutEmptyDate(store: ReminderCollection)
    requires store.docs == map[]
    ensures AskGeminiPrompt(store, "What are my tasks on 2025-07-13?")
      == SendPrompt("No reminders found for 2025-07-13.")
  {
    var p, q := "What are my tasks on ", "What are my tasks on 2025-07-13?";
    assert forall j :: 0 <= j < |p| ==> !IsDigit(p[j]);
    assert p + "2025-07-13" + "?" == q;
    DateAfterDigitFreePrefix(p, "2025-07-13", "?");
    assert RemindersForDate(map[], "2025-07-13") == [];
    assert AskGeminiPrompt(store, q) == SendPrompt(DatePrompt("2025-07-13", []));
    EmptyDatePromptText();
  }

  lemma EmptyDatePromptText()
    ensures DatePrompt("2025-07-13", []) == "No reminders found for 2025-07-13."
  {
  }

  /** A question without a date token is answered with the error message. */
  lemma AskWithoutDate(store: ReminderCollection)
    ensures AskGeminiPrompt(store, "What's up today?") == ShowError(NoDateMessage)
  {
  }

  /** The summary of a one-record bucket. */
  lemma SummaryOfOneReminder(t: Instant)
    ensures DailySummary("2025-07-13", [Reminder("Buy milk", t, "manual")])
      == "Here are your tasks for today (2025-07-13):\n- Buy milk (manual)"
  {
    var rs := [Reminder("Buy milk", t, "manual")];
    BuyMilkLine(t);
    assert ReminderLines(rs) == ["- Buy milk (manual)"];
    assert Join("\n", ["- Buy milk (manual)"]) == "- Buy milk (manual)";
    OneReminderSummaryText();
  }

  lemma BuyMilkLine(t: Instant)
    ensures ReminderLine(Reminder("Buy milk", t, "manual")) == "- Buy milk (manual)"
  {
  }

  lemma OneReminderSummaryText()
    ensures SummaryHeader("2025-07-13") + "- Buy milk (manual)"
      == "Here are your tasks for today (2025-07-13):\n- Buy milk (manual)"
  {
  }

  /** In any listing ordered as `get_all_reminders` orders it, 2024-12-31 comes
      before 2025-01-02. */
  lemma ListingPutsEarlierDateFirst(items: seq<Entry>, i: int, j: int)
    requires StrictlyAscending(items)
    requires 0 <= i < |items| && 0 <= j < |items|
    requires items[i].0 == "2024-12-31" && items[j].0 == "2025-01-02"
    ensures i < j
  {
    assert !LexLess("2025-01-02", "2024-12-31");
  }
}
