/** The two texts the assistant derives from the store: the daily planner summary
    and the prompt composed for the Ask-Gemini query. */
module Assistant {
  import opened Optional
  import opened Text
  import opened DateToken
  import opened ReminderStore

  /** The rendering of one record, `- <text> (<type>)`. */
  function ReminderLine(r: Reminder): (line: string)
    ensures |line| == |r.text| + |r.kind| + 5
    ensures line[..2] == "- " && line[2..2 + |r.text|] == r.text
    ensures line[|line| - 1] == ')'
  {
    "- " + r.text + " (" + r.kind + ")"
  }

  /** One line per record, in stored order. */
  function ReminderLines(rs: seq<Reminder>): (lines: seq<string>)
    ensures |lines| == |rs|
    ensures forall i :: 0 <= i < |rs| ==> lines[i] == ReminderLine(rs[i])
  {
    seq(|rs|, i requires 0 <= i < |rs| => ReminderLine(rs[i]))
  }

  const NoRemindersToday := "You have no reminders scheduled for today."

  function SummaryHeader(today: string): string
  {
    "Here are your tasks for today (" + today + "):\n"
  }

  /** The daily summary for `today` over its bucket `rs`: the fixed sentence when the
      bucket is empty, otherwise the header and one line per record, in stored order,
      separated by newlines and with no newline after the last one. */
  function DailySummary(today: string, rs: seq<Reminder>): (s: string)
    ensures rs == [] ==> s == NoRemindersToday
    ensures rs != [] ==> var h := SummaryHeader(today);
      |h| < |s| && s[..|h|] == h && s[|s| - 1] == ')'
  {
    if rs == [] then NoRemindersToday
    else
      JoinEndsWithLastPart("\n", ReminderLines(rs));
      SummaryHeader(today) + Join("\n", ReminderLines(rs))
  }

  /** Every record of a non-empty bucket has its line in the summary, after the header. */
  lemma DailySummaryListsEveryReminder(today: string, rs: seq<Reminder>, i: int)
    requires 0 <= i < |rs|
    ensures var s := DailySummary(today, rs); var h := SummaryHeader(today);
      |h| <= |s| && s[..|h|] == h && IsSubstring(ReminderLine(rs[i]), s[|h|..])
  {
    var s := DailySummary(today, rs);
    var h := SummaryHeader(today);
    JoinContainsParts("\n", ReminderLines(rs), i);
    assert s[|h|..] == Join("\n", ReminderLines(rs));
  }

  /** `generate_daily_summary`, with `today` passed in rather than read from the clock:
      the header and then one `line + "\n"` per record appended in a loop, and the
      result stripped. */
  method GenerateDailySummary(store: ReminderCollection, today: string) returns (summary: string)
    ensures summary == DailySummary(today, RemindersForDate(store.docs, today))
  {
    var reminders := RemindersForDate(store.docs, today);
    if reminders != [] {
      ghost var lines := ReminderLines(reminders);
      summary := SummaryHeader(today);
      for i := 0 to |reminders|
        invariant summary == SummaryHeader(today) + Join("\n", lines[..i]) + (if i == 0 then "" else "\n")
      {
        SummaryStep(SummaryHeader(today), lines, i);
        summary := summary + ReminderLine(reminders[i]) + "\n";
      }
      assert lines[..|reminders|] == lines;
      StrippedSummary(today, reminders);
      summary := Strip(summary);
    } else {
      summary := NoRemindersToday;
    }
  }

  /** One turn of the summary loop: appending a line and a newline extends the join. */
  lemma SummaryStep(h: string, lines: seq<string>, i: nat)
    requires i < |lines|
    ensures h + Join("\n", lines[..i + 1]) + "\n"
      == h + Join("\n", lines[..i]) + (if i == 0 then "" else "\n") + lines[i] + "\n"
  {
    JoinSnoc("\n", lines[..i], lines[i]);
    assert lines[..i + 1] == lines[..i] + [lines[i]];
  }

  /** `strip()` takes off only the newline after the last line. */
  lemma StrippedSummary(today: string, rs: seq<Reminder>)
    requires rs != []
    ensures Strip(SummaryHeader(today) + Join("\n", ReminderLines(rs)) + "\n") == DailySummary(today, rs)
  {
    var body := SummaryHeader(today) + Join("\n", ReminderLines(rs));
    assert body == DailySummary(today, rs);
    StripTrailingNewline(body);
  }

  const NoDateMessage := "Could not find a valid date in your query."

  /** What the Ask-Gemini button leads to: a prompt to send to the model, or the
      error shown when the query holds no date token. */
  datatype AskOutcome = SendPrompt(prompt: string) | ShowError(message: string)

  /** The prompt for the date `d` whose bucket is `rs`. */
  function DatePrompt(d: string, rs: seq<Reminder>): (p: string)
    ensures rs == [] ==> p == "No reminders found for " + d + "."
    ensures rs != [] ==> var opening := "For " + d + ", here are your reminders:\n";
      var closing := "\nCan you summarize or organize them?";
      |opening| + |closing| < |p| && p[..|opening|] == opening && p[|p| - |closing|..] == closing
  {
    if rs == [] then "No reminders found for " + d + "."
    else "For " + d + ", here are your reminders:\n" + Join("\n", ReminderLines(rs))
         + "\nCan you summarize or organize them?"
  }

  /** The Ask-Gemini handler up to the model call: find the date token, read its
      bucket and compose the prompt, or report that no date was found. */
  function AskGeminiPrompt(store: ReminderCollection, userInput: string): (o: AskOutcome)
    reads store
    ensures o.ShowError? <==> forall i :: !DateAt(userInput, i)
    ensures o.ShowError? ==> o.message == NoDateMessage
    ensures o.SendPrompt? ==>
      exists i :: FirstDateAt(userInput, i) && o.prompt == DatePrompt(
        userInput[i..i + TokenLength], RemindersForDate(store.docs, userInput[i..i + TokenLength]))
  {
    match ExtractDateFromInput(userInput)
    case None => ShowError(NoDateMessage)
    case Some(queryDate) => SendPrompt(DatePrompt(queryDate, RemindersForDate(store.docs, queryDate)))
  }

  /** Both kinds of prompt name the date; a non-empty bucket has every record's line
      in the prompt, between the fixed opening and closing sentences. */
  lemma DatePromptContents(d: string, rs: seq<Reminder>)
    ensures IsSubstring(d, DatePrompt(d, rs))
    ensures rs == [] ==> DatePrompt(d, rs) == "No reminders found for " + d + "."
    ensures rs != [] ==> forall i :: 0 <= i < |rs| ==> IsSubstring(ReminderLine(rs[i]), DatePrompt(d, rs))
  {
    var p := DatePrompt(d, rs);
    if rs == [] {
      assert OccursAt(d, p, |"No reminders found for "|);
    } else {
      var opening := "For " + d + ", here are your reminders:\n";
      var body := Join("\n", ReminderLines(rs));
      var closing := "\nCan you summarize or organize them?";
      assert p == opening + body + closing;
      assert OccursAt(d, p, 4);
      forall i | 0 <= i < |rs| ensures IsSubstring(ReminderLine(rs[i]), p) {
        LineInPrompt(d, rs, i);
      }
    }
  }

  /** The line of record `i` occurs in the prompt for a non-empty bucket. */
  lemma LineInPrompt(d: string, rs: seq<Reminder>, i: int)
    requires 0 <= i < |rs|
    ensures IsSubstring(ReminderLine(rs[i]), DatePrompt(d, rs))
  {
    var opening := "For " + d + ", here are your reminders:\n";
    var body := Join("\n", ReminderLines(rs));
    var closing := "\nCan you summarize or organize them?";
    assert DatePrompt(d, rs) == opening + body + closing;
    JoinContainsParts("\n", ReminderLines(rs), i);
    var k :| OccursAt(ReminderLine(rs[i]), body, k);
    OccursInMiddle(ReminderLine(rs[i]), opening, body, closing, k);
  }
}
