# MediSafe screens in Dafny

MediSafe is a mobile-style React web app for managing one's own medication and
health records. This project models the state and logic of six of its
screens. Each screen's React state becomes a Dafny `class` with `seq` fields.
Each event handler becomes a method, specified by a pure function that
states the `prev => prev.map(...)` / `prev.filter(...)` update.

- **Home** (`Home.dfy`): today's reminders, marking one as taken.
- **Medication calendar** (`Calendar.dfy`): the 42-cell month grid built by
  three loops, the reminders of a date, marking a dose taken, and month
  navigation. The calendar arithmetic includes leap years, month lengths and
  a day-of-week function.
- **Checkup management** (`Checkups.dfy`): the status filter, deletion, the
  reminder toggle, marking completed, status labels, the "today / N days"
  badge with urgency, and the status counts.
- **Medication inventory** (`Inventory.dfy`): the case-insensitive search and
  status filter, deletion, status labels, the empty-list message, and the
  stock counts.
- **Medical history** (`History.dfy`): the four-field search and department
  filter, deletion, the de-duplicated department buttons, and the department
  count.
- **Health consultation** (`Consultation.dfy`): the chat transcript, sending
  typed and predefined questions, the canned-answer table, keyword
  classification, liking and deleting messages.

Shared pieces:
- `Lists.dfy` holds `Array.filter` and the conditional `Array.map`.
- `Text.dfy` holds `String.prototype.trim`, `includes` and `toLowerCase`.
- `Shared.dfy` holds `Option` and the dose status.

## Model

All paths are under `src/pages/`.

| member | source | states |
|---|---|---|
| Lists.Filter | src/pages/CheckupManagement.tsx:176-178 | `Array.filter`: the result is a subsequence of the input and holds exactly the passing elements, with their multiplicities |
| Lists.FilterKeepsAll | src/pages/MedicationInventory.tsx:190-197 | a filter every element passes returns the list unchanged |
| Lists.FilterIdempotent | src/pages/MedicationInventory.tsx:190-197 | filtering twice by the same test is filtering once |
| Lists.CountWhere | src/pages/CheckupManagement.tsx:492 | the count is at most the length; it is 0 iff no element passes and the full length iff all pass |
| Lists.FilterLength | src/pages/CheckupManagement.tsx:492 | a filter's length is the number of passing elements |
| Lists.SubsequenceLength | src/pages/MedicalHistory.tsx:187-193 | a filtered list is never longer than the list |
| Lists.ReplaceWhere | src/pages/Home.tsx:122-128 | the conditional `map`: same length; each selected element is updated and every other one is kept in place |
| Text.TrimStart | src/pages/HealthConsultation.tsx:134 | removes a blank prefix; the result is a suffix of the input that starts with non-whitespace |
| Text.TrimEnd | src/pages/HealthConsultation.tsx:134 | removes a blank suffix; the result is a prefix of the input that ends with non-whitespace |
| Text.Trim | src/pages/HealthConsultation.tsx:134 | `trim()`: a slice with only whitespace around it; it is empty iff the input is blank; it has no whitespace at either end |
| Text.TrimIdempotent | src/pages/HealthConsultation.tsx:139 | trimming a trimmed string changes nothing |
| Text.Contains | src/pages/HealthConsultation.tsx:160 | `includes`: true iff the substring occurs at some position |
| Text.ContainsTrimmed | src/pages/HealthConsultation.tsx:154-162 | a keyword with non-whitespace at both ends occurs in a string iff it occurs in the trimmed string |
| Text.AbsentFirstChar | src/pages/HealthConsultation.tsx:198 | a string whose first character is absent from the text does not occur in it |
| Text.ContainsEmpty | src/pages/MedicationInventory.tsx:191 | the empty keyword occurs in every string |
| Text.LowerIdempotent | src/pages/MedicationInventory.tsx:191 | lower-casing twice is lower-casing once |
| Text.ContainsIgnoringCaseProperties | src/pages/MedicalHistory.tsx:164-167 | the case-insensitive search ignores the case of either side, and the empty keyword matches everything |
| MedicationCalendar.DaysInMonth | src/pages/MedicationCalendar.tsx:121 | a month has 28 to 31 days, and 29 exactly for February of a leap year |
| MedicationCalendar.PreviousMonth | src/pages/MedicationCalendar.tsx:131 | the month before, one month earlier in the running month count |
| MedicationCalendar.FollowingMonth | src/pages/MedicationCalendar.tsx:141-146 | the month after, one month later in the running month count |
| MedicationCalendar.NextDay | src/pages/MedicationCalendar.tsx:136-146 | the day after a valid date is a valid date |
| MedicationCalendar.NewDate | src/pages/MedicationCalendar.tsx:130-146 | `new Date(y, m, d)` as the grid calls it: a day from 1 on is that day of the month; day 0 or below counts back from the previous month's last day; month 13 is January of the next year; the result is always a valid date |
| MedicationCalendar.Weekday | src/pages/MedicationCalendar.tsx:124 | `getDay()` lies in 0..6 |
| MedicationCalendar.WeekdayAnchors | src/pages/MedicationCalendar.tsx:124 | `getDay()` of known dates: 1 January 1970 is Thursday, 1 January 2000 is Saturday, 1 October 2025 is Wednesday. With `WeekdayNextDay` this fixes the weekday of every date |
| MedicationCalendar.YearTermStep | src/pages/MedicationCalendar.tsx:124 | each year moves the weekday on by one day, or two after a leap year |
| MedicationCalendar.MonthBaseStep | src/pages/MedicationCalendar.tsx:124 | consecutive months' weekday bases differ by the month length modulo 7 |
| MedicationCalendar.WeekdayNextDay | src/pages/MedicationCalendar.tsx:124 | the weekday function agrees with the calendar: the next day has the next weekday |
| MedicationCalendar.WeekdayNextMonth | src/pages/MedicationCalendar.tsx:124 | the 1st of the next month falls on the weekday after this month's last day |
| MedicationCalendar.BuildMonthGrid | src/pages/MedicationCalendar.tsx:114-148 | the three loops produce exactly the 42-cell month grid |
| MedicationCalendar.MonthGridShape | src/pages/MedicationCalendar.tsx:130-146 | the grid has 42 cells: trailing days of the previous month ending on its last day, then days 1..n, then the next month from day 1 |
| MedicationCalendar.GridCellStep | src/pages/MedicationCalendar.tsx:130-146 | every cell is a valid date and the next cell is the day after it |
| MedicationCalendar.MonthGridConsecutive | src/pages/MedicationCalendar.tsx:130-146 | the 42 cells are 42 consecutive valid days |
| MedicationCalendar.MonthGridWeekdays | src/pages/MedicationCalendar.tsx:124-146 | with `firstDayOfWeek` taken from the 1st, cell `i` falls on weekday `i % 7`, so every cell sits under its weekday column |
| MedicationCalendar.CellWeekday | src/pages/MedicationCalendar.tsx:124-146 | one cell is valid and sits in its weekday column |
| MedicationCalendar.CellWeekdayForward | src/pages/MedicationCalendar.tsx:136-146 | the column property for cells from the 1st onwards |
| MedicationCalendar.CellWeekdayBackward | src/pages/MedicationCalendar.tsx:130-133 | the column property for the leading cells of the previous month |
| MedicationCalendar.RemindersForDate | src/pages/MedicationCalendar.tsx:152-156 | exactly the reminders keyed to the date, in order and with their multiplicities |
| MedicationCalendar.HasReminders | src/pages/MedicationCalendar.tsx:158-160 | true iff some reminder is keyed to the date |
| MedicationCalendar.MarkAsTaken | src/pages/MedicationCalendar.tsx:179-185 | reminders with the id become taken and keep their other fields; the rest stay in place |
| MedicationCalendar.MarkAsTakenIdempotent | src/pages/MedicationCalendar.tsx:179-185 | marking twice is marking once |
| MedicationCalendar.MarkAsTakenUnknownId | src/pages/MedicationCalendar.tsx:179-185 | an id no reminder has changes nothing |
| MedicationCalendar.SetMonthAsWritten | src/pages/MedicationCalendar.tsx:188-204 | `setMonth(getMonth() ± 1)`: when the target month has the day, the result is that day of the target month; otherwise it is day `day - n` of the month after the target, where `n` is the target month's length. The month moves by exactly one iff the day exists |
| MedicationCalendar.TargetMonth | src/pages/MedicationCalendar.tsx:191 | the target month is one month away, carrying across years |
| MedicationCalendar.SetMonthAsWrittenSkipsMonths | src/pages/MedicationCalendar.tsx:200 | 31 January "next" gives 3 March and 31 March "previous" gives 3 March |
| MedicationCalendar.ShiftMonth | src/pages/MedicationCalendar.tsx:188-204 | the intended navigation: exactly one month away, keeping the day or clamping it to the last day |
| MedicationCalendar.ShiftMonthAgreesWhenDayExists | src/pages/MedicationCalendar.tsx:188-204 | whenever the target month has the selected day, the intended and the written navigation agree |
| MedicationCalendar.CalendarScreen.constructor | src/pages/MedicationCalendar.tsx:114-148 | the initial state is the given date with its grid built |
| MedicationCalendar.CalendarScreen.RefreshGrid | src/pages/MedicationCalendar.tsx:114-148 | the effect rebuilds the grid of the selected month |
| MedicationCalendar.CalendarScreen.SelectDate | src/pages/MedicationCalendar.tsx:174 | the selected date is replaced and the grid follows it |
| MedicationCalendar.CalendarScreen.NavigateToNextMonth | src/pages/MedicationCalendar.tsx:197-204 | the selected date moves one month on by `ShiftMonth`, and the grid follows |
| MedicationCalendar.CalendarScreen.NavigateToPreviousMonth | src/pages/MedicationCalendar.tsx:188-195 | the selected date moves one month back by `ShiftMonth`, and the grid follows |
| MedicationCalendar.CalendarScreen.MarkReminderTaken | src/pages/MedicationCalendar.tsx:179-185 | the reminders become `MarkAsTaken` of the old ones |
| MedicationCalendar.CalendarScreen.SelectedDateReminders | src/pages/MedicationCalendar.tsx:217 | exactly the reminders keyed to the selected date, in order; the list is empty iff the date has no reminders |
| CheckupManagement.FilterCheckups | src/pages/CheckupManagement.tsx:176-178 | `'all'` lists everything; a status lists exactly the checkups with that status, in order |
| CheckupManagement.RemoveCheckup | src/pages/CheckupManagement.tsx:193-199 | checkups with the id go; every other one stays, in order and with its multiplicity |
| CheckupManagement.ToggleReminder | src/pages/CheckupManagement.tsx:202-210 | checkups with the id flip their reminder and keep every other field; the rest stay in place |
| CheckupManagement.ToggleReminderTwice | src/pages/CheckupManagement.tsx:202-210 | toggling twice restores the list |
| CheckupManagement.MarkCompleted | src/pages/CheckupManagement.tsx:213-221 | checkups with the id become completed, whatever their status was |
| CheckupManagement.MarkCompletedIdempotent | src/pages/CheckupManagement.tsx:213-221 | completing twice is completing once |
| CheckupManagement.UnknownIdChangesNothing | src/pages/CheckupManagement.tsx:193-221 | deleting, toggling or completing an unknown id changes nothing |
| CheckupManagement.StatusLabel | src/pages/CheckupManagement.tsx:229-240 | the label is "未知" exactly for strings outside the three statuses |
| CheckupManagement.StatusLabelsDistinct | src/pages/CheckupManagement.tsx:229-240 | the three statuses have three different known labels |
| CheckupManagement.BadgeFor | src/pages/CheckupManagement.tsx:410-418 | a badge appears iff the checkup is upcoming; it says "today" iff it is at most 0 days away, otherwise it shows the number of days (at least 1) |
| CheckupManagement.BadgeAndUrgency | src/pages/CheckupManagement.tsx:338-339 | a badged checkup is urgent iff it is at most 3 days away; a "today" badge is always urgent |
| CheckupManagement.IsUrgent | src/pages/CheckupManagement.tsx:339 | a checkup is urgent iff it carries a due badge (it is upcoming) and is at most 3 days away |
| CheckupManagement.StatusCount | src/pages/CheckupManagement.tsx:492-498 | a status card's count is at most the total, 0 iff no checkup has that status, and the total iff all do |
| CheckupManagement.StatusCountsPartition | src/pages/CheckupManagement.tsx:487-498 | the three status counts add up to the total card's value |
| CheckupManagement.CheckupScreen.constructor | src/pages/CheckupManagement.tsx:168 | the filter starts at `'all'` |
| CheckupManagement.CheckupScreen.SelectStatusFilter | src/pages/CheckupManagement.tsx:171-173 | the filter is replaced |
| CheckupManagement.CheckupScreen.DeleteCheckup | src/pages/CheckupManagement.tsx:193-199 | the list becomes `RemoveCheckup` of the old one |
| CheckupManagement.CheckupScreen.ToggleReminderOf | src/pages/CheckupManagement.tsx:202-210 | the list becomes `ToggleReminder` of the old one |
| CheckupManagement.CheckupScreen.MarkAsCompleted | src/pages/CheckupManagement.tsx:213-221 | the list becomes `MarkCompleted` of the old one |
| CheckupManagement.CheckupScreen.Shown | src/pages/CheckupManagement.tsx:176-178 | the listed checkups: all of them under `'all'`, otherwise only those with the selected status, in list order |
| MedicationInventory.FilterMedications | src/pages/MedicationInventory.tsx:190-197 | exactly the items whose name or dosage form contains the keyword (ignoring case) and that pass the status filter, in order |
| MedicationInventory.EmptySearchShowsAll | src/pages/MedicationInventory.tsx:190-197 | an empty keyword with `'all'` lists the whole inventory |
| MedicationInventory.FilterMedicationsIdempotent | src/pages/MedicationInventory.tsx:190-197 | filtering the listed items again changes nothing |
| MedicationInventory.RemoveMedication | src/pages/MedicationInventory.tsx:212-218 | items with the id go; every other one stays, in order |
| MedicationInventory.RemoveUnknownId | src/pages/MedicationInventory.tsx:212-218 | deleting an unknown id changes nothing |
| MedicationInventory.StatusLabel | src/pages/MedicationInventory.tsx:226-238 | the label is "未知" exactly for strings outside the three statuses |
| MedicationInventory.StatusLabelsDistinct | src/pages/MedicationInventory.tsx:226-238 | the three statuses have three different known labels |
| MedicationInventory.EmptyStateMessage | src/pages/MedicationInventory.tsx:420 | "no match" iff a keyword was typed, "inventory empty" iff none was |
| MedicationInventory.EmptyInventoryMessageTruthful | src/pages/MedicationInventory.tsx:420 | with no keyword and `'all'`, an empty list means an empty inventory |
| MedicationInventory.StatusCount | src/pages/MedicationInventory.tsx:441-447 | a stock card's count is at most the total, 0 iff no item has that status, and the total iff all do |
| MedicationInventory.StatusCountsPartition | src/pages/MedicationInventory.tsx:436-447 | the three status counts add up to the total; low plus expired never exceeds it |
| MedicationInventory.InventoryScreen.constructor | src/pages/MedicationInventory.tsx:174-177 | the search starts empty and the filter at `'all'` |
| MedicationInventory.InventoryScreen.Search | src/pages/MedicationInventory.tsx:180-182 | the search box holds the typed text |
| MedicationInventory.InventoryScreen.SelectStatusFilter | src/pages/MedicationInventory.tsx:185-187 | the filter is replaced |
| MedicationInventory.InventoryScreen.DeleteMedication | src/pages/MedicationInventory.tsx:212-218 | the inventory becomes `RemoveMedication` of the old one |
| MedicationInventory.InventoryScreen.Shown | src/pages/MedicationInventory.tsx:190-197 | the listed items: the whole inventory with an empty search and `'all'`, otherwise only items matching both the search and the status, in list order |
| MedicationInventory.InventoryScreen.EmptyMessage | src/pages/MedicationInventory.tsx:420 | the empty-list text is "no match" iff the search box is not empty, and "inventory empty" iff it is |
| MedicalHistory.FilterVisits | src/pages/MedicalHistory.tsx:162-172 | exactly the visits whose doctor, department, hospital or diagnosis contains the keyword (ignoring case) and that pass the department filter, in order |
| MedicalHistory.EmptySearchShowsAll | src/pages/MedicalHistory.tsx:162-172 | an empty keyword with `'all'` lists every visit |
| MedicalHistory.RemoveVisit | src/pages/MedicalHistory.tsx:187-193 | visits with the id go; every other one stays, in order |
| MedicalHistory.RemoveUnknownId | src/pages/MedicalHistory.tsx:187-193 | deleting an unknown id changes nothing |
| MedicalHistory.FirstIndex | src/pages/MedicalHistory.tsx:213 | the position where a string first occurs |
| MedicalHistory.Distinct | src/pages/MedicalHistory.tsx:213 | `Array.from(new Set(xs))`: no duplicates, the same members, in order of first occurrence |
| MedicalHistory.DepartmentsOf | src/pages/MedicalHistory.tsx:213 | the visits' departments, position by position |
| MedicalHistory.Departments | src/pages/MedicalHistory.tsx:213 | `'all'` first, then each department of some visit exactly once and nothing else, in order of first appearance |
| MedicalHistory.EveryDepartmentListed | src/pages/MedicalHistory.tsx:213 | every visit's department has a button |
| MedicalHistory.DistinctCardinality | src/pages/MedicalHistory.tsx:419 | a duplicate-free list has as many elements as its set |
| MedicalHistory.DepartmentCount | src/pages/MedicalHistory.tsx:419 | `departments.length - 1` is the number of different departments |
| MedicalHistory.AllButtonOnce | src/pages/MedicalHistory.tsx:213 | when no department is named `'all'`, the `'all'` button appears once |
| MedicalHistory.DepartmentButtonNeverEmpty | src/pages/MedicalHistory.tsx:157-172 | choosing a department button with no keyword lists at least one visit |
| MedicalHistory.HistoryScreen.constructor | src/pages/MedicalHistory.tsx:146-149 | the search starts empty and the filter at `'all'` |
| MedicalHistory.HistoryScreen.Search | src/pages/MedicalHistory.tsx:152-154 | the search box holds the typed text |
| MedicalHistory.HistoryScreen.SelectDepartment | src/pages/MedicalHistory.tsx:157-159 | the department filter is replaced |
| MedicalHistory.HistoryScreen.DeleteVisit | src/pages/MedicalHistory.tsx:187-193 | the visits become `RemoveVisit` of the old ones |
| MedicalHistory.HistoryScreen.Shown | src/pages/MedicalHistory.tsx:162-172 | the listed visits: all of them with an empty search and `'all'`, otherwise only visits matching both the search and the department, in list order |
| MedicalHistory.HistoryScreen.DepartmentButtons | src/pages/MedicalHistory.tsx:213 | the buttons start with `'all'`, list no department twice, and include every visit's department |
| HealthConsultation.PredefinedAnswered | src/pages/HealthConsultation.tsx:62-79 | each predefined question has its own answer, which is not the fallback |
| HealthConsultation.Reply | src/pages/HealthConsultation.tsx:151-156 | the table entry for a key in the table, the fallback text otherwise |
| HealthConsultation.Classify | src/pages/HealthConsultation.tsx:159-164 | drug iff the text mentions 药, 服用 or 副作用; health iff it mentions none of those but one of 血压, 失眠 or 饮食; general otherwise |
| HealthConsultation.ClassifyIgnoresSurroundingWhitespace | src/pages/HealthConsultation.tsx:137-164 | classifying the raw input and classifying the trimmed text give the same category |
| HealthConsultation.MentionsDrugTrimmed | src/pages/HealthConsultation.tsx:160 | the drug keywords occur in the trimmed text iff they occur in the raw text |
| HealthConsultation.MentionsHealthTrimmed | src/pages/HealthConsultation.tsx:162 | the health keywords occur in the trimmed text iff they occur in the raw text |
| HealthConsultation.PredefinedCategoryAsWritten | src/pages/HealthConsultation.tsx:198 | drug iff the question mentions 药 or 服用, health otherwise, never general |
| HealthConsultation.SideEffectsQuestionKeywords | src/pages/HealthConsultation.tsx:65 | the side-effects question contains 副作用 but neither 药 nor 服用 |
| HealthConsultation.PredefinedCategoryDisagrees | src/pages/HealthConsultation.tsx:198 | the side-effects question is health by its button but drug when typed |
| HealthConsultation.ColdMedicineQuestionKeywords | src/pages/HealthConsultation.tsx:63 | the cold-medicine question mentions 服用 |
| HealthConsultation.BloodPressureQuestionKeywords | src/pages/HealthConsultation.tsx:64 | the blood-pressure question mentions 血压 and none of 药, 服用 or 副作用 |
| HealthConsultation.InsomniaQuestionKeywords | src/pages/HealthConsultation.tsx:66 | the insomnia question mentions 失眠 and none of 药, 服用 or 副作用 |
| HealthConsultation.PredefinedQuestionsClassified | src/pages/HealthConsultation.tsx:62-67 | the typed-question rule never files a predefined question as general. The button rule agrees with it on every predefined question except the side-effects question |
| HealthConsultation.LookupAsWritten | src/pages/HealthConsultation.tsx:154 | `mockAIResponses[key]`: an answer iff the key is in the table; an inherited member iff it is not but names an `Object.prototype` member |
| HealthConsultation.ReplyAsWritten | src/pages/HealthConsultation.tsx:151-156 | for a key that is not an inherited name, the written reply is the table lookup with the fallback; for an inherited name missing from the table, it is the inherited member |
| HealthConsultation.InheritedNameAnswered | src/pages/HealthConsultation.tsx:154-155 | typing `toString` gets the inherited method instead of the fallback |
| HealthConsultation.ReplyMessage | src/pages/HealthConsultation.tsx:167-175 | the assistant message: a typed question gets the answer to its trimmed text and the raw input's category; a predefined question gets its own answer and the category its button rule gives |
| HealthConsultation.UserMessage | src/pages/HealthConsultation.tsx:137-142 | the user's message carries the given text, id and time, from the user, with no like and no category |
| HealthConsultation.ToggleLike | src/pages/HealthConsultation.tsx:206-212 | messages with the id get `liked` set to the negation of whether they were liked, and keep every other field |
| HealthConsultation.ToggleLikeTwice | src/pages/HealthConsultation.tsx:206-212 | liking twice restores whether a message is liked |
| HealthConsultation.RemoveMessage | src/pages/HealthConsultation.tsx:215-219 | messages with the id go; every other one stays, in order |
| HealthConsultation.UnknownIdChangesNothing | src/pages/HealthConsultation.tsx:206-219 | liking or deleting an unknown id changes nothing |
| HealthConsultation.ConsultationScreen.constructor | src/pages/HealthConsultation.tsx:41-49 | the transcript starts with the greeting alone, from the assistant, in the general category |
| HealthConsultation.ConsultationScreen.SetInput | src/pages/HealthConsultation.tsx:455 | the input box holds the typed text |
| HealthConsultation.ConsultationScreen.SendMessage | src/pages/HealthConsultation.tsx:133-177 | blank input changes nothing. Otherwise the trimmed text is appended as the user's message, the box is cleared and a reply to the raw input is queued. The predefined panel then shows only if the transcript was empty before |
| HealthConsultation.ConsultationScreen.SendPredefinedQuestion | src/pages/HealthConsultation.tsx:180-203 | the box is cleared, the question is appended as the user's message, and its reply is queued. The predefined panel then shows only if the transcript was empty before |
| HealthConsultation.ConsultationScreen.DeliverReply | src/pages/HealthConsultation.tsx:150-176 | the oldest queued reply is appended as the assistant's message and leaves the queue |
| HealthConsultation.ConsultationScreen.LikeMessage | src/pages/HealthConsultation.tsx:206-212 | the transcript becomes `ToggleLike` of the old one |
| HealthConsultation.ConsultationScreen.DeleteMessage | src/pages/HealthConsultation.tsx:215-219 | the transcript becomes `RemoveMessage` of the old one |
| HealthConsultation.ConsultationScreen.ShowsPredefinedQuestions | src/pages/HealthConsultation.tsx:405 | the predefined panel is shown while the transcript holds at most one message |
| HealthConsultation.ConsultationScreen.CanSend | src/pages/HealthConsultation.tsx:483 | the send button is enabled iff the input is not all whitespace |
| HealthConsultation.PanelAfterPredefinedQuestion | src/pages/HealthConsultation.tsx:180-203 | from the opening state the panel is shown; after the first predefined question it is hidden |
| HealthConsultation.PanelAfterTypedQuestion | src/pages/HealthConsultation.tsx:133-147 | from the opening state the panel is shown; after sending typed text it is hidden iff the text was not all whitespace |
| Home.MarkAsTaken | src/pages/Home.tsx:122-128 | reminders with the id become taken and keep name, time and dosage; the rest stay in place |
| Home.MarkAsTakenIdempotent | src/pages/Home.tsx:122-128 | marking twice is marking once |
| Home.MarkAsTakenUnknownId | src/pages/Home.tsx:122-128 | an id no reminder has changes nothing |
| Home.MarkAsTakenCommutes | src/pages/Home.tsx:122-128 | marking two reminders gives the same list in either order |
| Home.HomeScreen.constructor | src/pages/Home.tsx:89-93 | the list starts as given |
| Home.HomeScreen.MarkReminderTaken | src/pages/Home.tsx:122-128 | the reminders become `MarkAsTaken` of the old ones |

## Left out

- Timers: the one-second `setTimeout` before each reply is modelled as an explicit `DeliverReply` step. Pending replies form a FIFO queue, since equal delays fire in the order they were set.
- The home screen's clock (`setInterval`) is left out. So are the remaining home-screen state (health metrics, the upcoming checkup card) and navigation.
- `Date.now()` ids and timestamps are method parameters, and the greeting's timestamp is a constructor parameter.
- Speech recognition, `window.confirm` and `alert` are left out. A delete method models the confirmed case; a declined confirm changes nothing.
- Calendar reminders are keyed by a `Date` value instead of the `toISOString()` date string. The UTC shift that `toISOString` can apply in time zones east of UTC is not modelled.
- `isToday`, `isSelectedDate` and the real clock are left out.
- The weekday of a date is computed by Sakamoto's method on the proleptic Gregorian calendar. JavaScript's `getDay` is taken to agree with it.
- `getDaysUntilCheckup` depends on the clock: `BadgeFor` and `IsUrgent` take the day count as a parameter.
- The badge's text formatting and the stat cards' `toString` are left out. The counts are modelled as numbers.
- Text.LowerChar: `toLowerCase` is modelled on ASCII letters only. Unicode case mapping is not modelled.
- The inventory's stock status is stored data, as in the screen; it is not derived from quantity or expiry date.
- The add and edit handlers only navigate or alert, so they are left out. So are the history export handler, styling, animation and JSX rendering.
- HealthConsultation.ConsultationScreen.SendPredefinedQuestion: requires the question to be one of the four, since the buttons only ever pass those.
- The HealthData and Profile screens, the App shell, the bottom navigation and the utility modules are not part of this model.
- The calendar class navigates with the corrected `ShiftMonth`, and the consultation class answers with the corrected `Reply`. The behaviour as written is modelled beside each one; see Findings.
- HealthConsultation.ReplyMessage: a predefined question's category follows the button's own rule (药 or 服用 means drug, anything else health), as written. This rule files the side-effects question under health, while typing the same words files it under drug (`PredefinedCategoryDisagrees`). The model keeps both rules side by side and does not decide which one is intended.
- Years: the model takes any integer year on the proleptic Gregorian calendar. JavaScript's `new Date(year, month, day)` reads years 0-99 as 1900-1999, and a JavaScript date only covers about 275,000 years either side of 1970. Neither is modelled; the screen only ever builds dates from a date it already holds.

## Findings

| source | as written | input that shows it | evidently intended | confidence | as-written member | corrected member |
|---|---|---|---|---|---|---|
| src/pages/MedicationCalendar.tsx:188-204 | `setMonth(getMonth() ± 1)` keeps the day of the month, so a day the target month lacks spills into the month after it | selected 31 January 2025, "next month" gives 3 March; selected 31 March, "previous month" gives 3 March (no move) | move exactly one month, clamping the day to the target month's last day | not executed | MedicationCalendar.SetMonthAsWrittenSkipsMonths | MedicationCalendar.ShiftMonth |
| src/pages/HealthConsultation.tsx:154-155 | `mockAIResponses[key]` on a plain object also finds inherited `Object.prototype` members | typing `toString` makes the reply the inherited function instead of the fallback text | look up own entries only, falling back otherwise | not executed | HealthConsultation.InheritedNameAnswered | HealthConsultation.Reply |
