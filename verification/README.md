# fm_bot event core in Dafny

fm_bot is a Telegram bot for club events. An admin creates an event in an eight-step
dialogue: name, description, price, address, maximum participants, date (`DD.MM`), time
(`HH:MM`) and poster. Replies to most steps can be autofilled from the newest event. The admin
can list the upcoming events, open an event card, see buttons for editing its fields (no
handler acts on them) and soft-delete an event.
Participants sign up for an event unless it is full, cancel a sign-up, switch same-day reminders
on or off, and download an event as an iCalendar (`.ics`) file. A background loop sends each
subscribed participant one reminder on the day of an event, inside a short morning window.

This project models that core on values and objects and proves what the handlers promise.

- **Database.** The SQLite tables are fields of a `Db` object.
- **Handlers.** Every handler that writes is a method that takes the `Db` object (in the
  creation dialogue, a method of `Session`). Its new tables are a pure function of the old
  ones, and lemmas about that function state the guarantees.
- **Creation dialogue.** The dialogue's context is a `Session` object.
- **Reminder memory.** The process-wide memory of sent reminders is a `ReminderLog` object.
- **Environment as parameters.** The clocks, Python's `float()` and `str(float)`, Telegram
  sends and the poster files on disk are all parameters.

Modules:

- `Wrappers`: `Option`.
- `Text`: the Python string operations the core relies on. These are `strip`, `int()`,
  `split`, `str(int)` and `f"{None}"`.
- `Calendar`: proleptic Gregorian dates, `timedelta` minutes, the `%H:%M` format of `strptime`
  and the `%Y%m%dT%H%M%S` format of `strftime`.
- `Store`: the tables and the queries the handlers share.
- `Callbacks`: callback payloads and which handler's filter takes them.
- `ParticipantEvents`: the participant handlers.
- `Reminders`: same-day reminders.
- `CreateEvent`: the creation dialogue.
- `AdminEvents`: the admin card handlers.
- `Ics`: the iCalendar export.

## Model

| member | source | states |
|---|---|---|
| Text.Strip | create_event.py:169 | The result has no leading or trailing white space; a text without white space is kept; the result is empty exactly when the text is all white space |
| Text.StripShape | create_event.py:63 | The stripped text is the run of the text after its leading white space, and only white space follows it |
| Text.TrimStart | ics_utils.py:24 | Only leading white space is removed, and the result starts with a non-space character |
| Text.Split | participant_events.py:296 | `split(sep)` gives at least one part, none containing the separator, and joining the parts with the separator gives back the text |
| Text.SplitJoin | participant_events.py:296 | Splitting a join of separator-free parts gives back exactly those parts |
| Text.NatToString | participant_events.py:187 | `str(n)` of a natural is a digit string that reads back as `n` and has no leading zero |
| Text.ParseIntRoundTrip | participant_events.py:296 | `int()` reads back every integer `str()` wrote, negative ones included |
| Text.ParseDigits | create_event.py:157 | `int()` of a non-empty digit string is its decimal value |
| Text.OptionText | create_event.py:123 | A text field formats as itself, and a NULL as `None` |
| Calendar.DaysInMonth | create_event.py:174 | Every month has 28 to 31 days, and February has 29 exactly in leap years |
| Calendar.NextDay | ics_utils.py:25 | The following day is valid, later, and one day number further on; only 9999-12-31 has none |
| Calendar.AddDays | ics_utils.py:25 | Adding `n` days moves the day number by exactly `n` |
| Calendar.AddMinutes | ics_utils.py:25 | `start + timedelta(minutes=n)` moves the minute count by exactly `n` and keeps the seconds; it exists for any start before 9999-12-31 and any `n` up to a day |
| Calendar.CompactTextFields | ics_utils.py:28-29 | The `%Y%m%dT%H%M%S` text is digits around a `T`, and every field reads back as the year, month, day, hour, minute and second it was written from |
| Calendar.ParseHourMinute | create_event.py:202 | A text accepted by `%H:%M` denotes a valid time with zero seconds |
| Calendar.ParseHourMinuteRoundTrip | create_event.py:202 | Every zero-padded `HH:MM` of a valid hour and minute is accepted and denotes that time |
| Store.FindEvent | participant_events.py:121-126 | The lookup by id without the deleted filter finds a row with that id, and finds none only when no row has it |
| Store.GetEvent | participant_events.py:206-220 | The lookup by id finds a live row with that id, and finds none exactly when every row with that id is deleted |
| Store.CountRegistrations | participant_events.py:94-103 | The count of an event's registrations is zero exactly when it has none, and never exceeds the table size |
| Store.LatestEvent | create_event.py:32-38 | The newest row exists exactly when the table is non-empty, and no row has a larger id |
| Store.NextId | create_event.py:56 | The id an insert receives is positive and larger than every id in use |
| Store.NextIdKeepsValid | create_event.py:41-59 | Inserting a row with that id keeps ids positive and increasing and dates valid |
| Store.TextAtMostTotal | participant_events.py:36 | Code-point order on texts is total |
| Store.TextAtMostTransitive | participant_events.py:36 | Code-point order on texts is transitive |
| Store.StartsNoLaterTotal | participant_events.py:36 | Ordering by date, then time with NULL first, is total |
| Store.StartsNoLaterTransitive | participant_events.py:36 | Ordering by date, then time, is transitive |
| Store.InsertByStart | participant_events.py:36 | Inserting a row into the ordered list adds exactly that row |
| Store.InsertKeepsSorted | participant_events.py:36 | Inserting into an ordered list keeps it ordered |
| Store.SortByStart | participant_events.py:36 | Sorting is a permutation of the rows |
| Store.SortByStartSorted | participant_events.py:36 | The sorted rows are ordered by date, then time |
| Store.UpcomingRows | participant_events.py:34-35 | The rows kept are exactly the live ones dated today or later |
| Store.FutureEvents | view_event_admin.py:30-43 | The upcoming events are a permutation of the live rows dated today or later, ordered by date, then time |
| Store.FutureEventsLimited | participant_events.py:27-45 | With a positive limit, the list is the first `limit` upcoming events (fewer if there are fewer); with no limit, or a limit of zero or less, it is all of them |
| Store.UserEvents | participant_events.py:48-66 | The user's events are exactly the upcoming events the user holds a registration for, ordered by date, then time, and no row appears more often than in the table |
| Store.UserEventsOnce | participant_events.py:53 | `SELECT DISTINCT`: in a table with unique ids, no event is listed twice |
| Store.KeepRegistered | participant_events.py:56-57 | The join keeps exactly the rows the user is registered for |
| Store.KeepRegisteredSorted | participant_events.py:60 | Filtering an ordered list keeps it ordered |
| Callbacks.Prefix | participant_events.py:187 | Every payload prefix is non-empty and free of colons |
| Callbacks.SignalText | participant_events.py:357 | Every fixed payload is non-empty and free of colons |
| Callbacks.Payload | view_event_admin.py:99-124 | A button with an id carries `prefix:id`, and a fixed button its colon-free word |
| Callbacks.HandlerWord | participant_events.py:294 | A prefix filter tests for its word followed by a colon, and an equality filter for the word itself |
| Callbacks.ColonPrefixes | view_event_admin.py:187-197 | `p:rest` starts with `q:` exactly when `p == q`, so `event_delete:` never takes an `event_delete_yes:` payload |
| Callbacks.ColonFreeNoPrefix | participant_events.py:450 | A colon-free payload is taken by no prefix filter |
| Callbacks.ActionWord | participant_events.py:294 | A prefix filter takes a button's payload exactly when it was registered for that button's action |
| Callbacks.SignalWord | participant_events.py:450 | An equality filter takes a fixed button's payload exactly when it was registered for that signal |
| Callbacks.RoutedToTarget | view_event_admin.py:161-205 | A handler's filter accepts a button's payload exactly when that handler is the button's intended target |
| Callbacks.EventIdOf | participant_events.py:296 | The id read from a payload is `int()` of the text between the first and second colons; there is none exactly when there is no second piece or `int()` fails on it |
| Callbacks.EventIdRoundTrip | participant_events.py:296 | Reading the id back from any button's payload gives the id it was built with |
| ParticipantEvents.Nickname | participant_events.py:314 | The nickname is the username, or empty when there is none |
| ParticipantEvents.EventKeyboard | participant_events.py:184-203 | The calendar button always comes last; a cancel button appears exactly for a registered user, a sign-up button exactly for an unregistered user of an event that is not full, and nothing else for an unregistered user of a full event |
| ParticipantEvents.NotificationSetting | participant_events.py:69-80 | A user without a row counts as subscribed |
| ParticipantEvents.SetNotification | participant_events.py:83-91 | The update creates no row for an unknown user |
| ParticipantEvents.SetThenGetNotification | participant_events.py:69-91 | After the update, the user's setting reads back as written (or stays on for an unknown user), and nobody else's setting changes |
| ParticipantEvents.SetUserNotificationSetting | participant_events.py:83-91 | The users table becomes the update of the old one, and no other table changes |
| ParticipantEvents.HandleDisableNotifications | participant_events.py:450-453 | The caller's reminders are switched off, and nothing else changes |
| ParticipantEvents.RegistrationRow | participant_events.py:118-135 | The inserted registration is for this event and this caller |
| ParticipantEvents.WithoutPair | participant_events.py:138-146 | After the delete, the caller holds no registration for the event; every other registration keeps its multiplicity; with none to delete the table is unchanged |
| ParticipantEvents.SignUp | participant_events.py:294-325 | A missing or deleted event changes nothing and is not found. A full event changes nothing. A registered user changes nothing. Otherwise exactly one registration and one log row are appended. Events and users never change. A full event answers "no seats" with the keyboard built as full; a live event with seats answers "signed up" with the card built from the new registrations |
| ParticipantEvents.SignUpReplyButtons | participant_events.py:305-325 | After a sign-up on a live event with seats the card offers the caller the cancel button; a full event's keyboard offers no sign-up button |
| ParticipantEvents.HandleUserRegister | participant_events.py:294-325 | The new tables and the reply are those of `SignUp` on the old tables |
| ParticipantEvents.Withdraw | participant_events.py:328-346 | The caller's registrations for the event are deleted whether or not the event is live. A log row is appended exactly when the event is live: the caller's "cancelled" or "unsubscribed" row for that event, stamped now. The reply is the event's card for the caller with the new registrations, and it offers no cancel button |
| ParticipantEvents.HandleUserCancel | participant_events.py:328-346 | The new tables and the reply are those of `Withdraw` for the cancel button |
| ParticipantEvents.HandleReminderUnsubscribe | participant_events.py:429-447 | The new tables and the reply are those of `Withdraw` for the unsubscribe button |
| ParticipantEvents.WithdrawRegistration | participant_events.py:331-342 | The shared body of both withdrawals: the tables and the reply follow `Withdraw` |
| ParticipantEvents.SignUpIdempotent | participant_events.py:312-321 | Signing up a second time leaves the tables as the first sign-up left them |
| ParticipantEvents.SignUpRespectsCapacity | participant_events.py:302-310 | A sign-up that inserts never takes the registration count above the capacity |
| ParticipantEvents.CountAppend | participant_events.py:94-103 | An appended registration raises its event's count by one and leaves other counts alone |
| ParticipantEvents.SignUpKeepsPairsUnique | participant_events.py:312-315 | Check-then-insert never creates a second registration for the same event and user |
| ParticipantEvents.WithoutPairIdempotent | participant_events.py:138-146 | Cancelling twice is the same as cancelling once |
| ParticipantEvents.WithoutPairAfterAppend | participant_events.py:138-146 | Cancelling after an append of the same pair gives what cancelling alone gives |
| ParticipantEvents.CancelUndoesSignUp | participant_events.py:312-331 | Cancelling after a sign-up leaves the registrations a cancel alone would leave |
| Reminders.WindowBounds | participant_events.py:384-393 | The window is 10:00:00 to 10:02:00 inclusive; no time before 10:00 falls in it |
| Reminders.EventsOn | participant_events.py:373-374 | The rows kept are exactly the live events dated today |
| Reminders.RowsForEvent | participant_events.py:371-375 | One event is joined to exactly its registered users whose reminders are on |
| Reminders.RowsForEvents | participant_events.py:370-375 | The join over several events gives exactly their registered and subscribed users |
| Reminders.TodayRows | participant_events.py:362-381 | The query returns exactly the pairs of a live event dated today and a registered user who has a row with reminders on |
| Reminders.UnknownUserNeverReminded | participant_events.py:372-375 | A user without a row reads as subscribed but is never reminded |
| Reminders.PairsOf | participant_events.py:404-406 | Each row's key is its event id and user id |
| Reminders.DeliverFacts | participant_events.py:403-413 | One pass sends each key at most once and never a remembered key. It remembers exactly what it sent. A pass that completes covers every row. A pass that raises stopped at a failing key it did not remember |
| Reminders.ResetFor | participant_events.py:420-421 | After the reset, the memory holds today's keys only, or nothing |
| Reminders.SendSpec | participant_events.py:396-413 | Outside the window nothing changes; inside it, today's entry exists afterwards |
| Reminders.DeliverStep | participant_events.py:407-413 | One step of the send loop: skip a remembered key, raise on a failing send, or send and remember |
| Reminders.ReminderLog.ResetForDay | participant_events.py:418-421 | The memory is the reset of the old memory |
| Reminders.ReminderLog.SendEventReminders | participant_events.py:396-413 | The loop's sends, its new memory and whether it raised are those of `SendSpec` |
| Reminders.ReminderLog.SendPass | participant_events.py:403-413 | One pass over the rows: the sends, the day's new memory and the raised flag are those of `Deliver`, and no other day's memory changes |
| Reminders.ReminderLog.Tick | participant_events.py:416-426 | One loop iteration is the reset, then a send pass over today's query rows |
| Reminders.TickRemembers | participant_events.py:416-426 | A tick keeps at most today's entry, adds exactly what it sent, sends no key twice and never a remembered one |
| Reminders.NoRepeatsAppend | participant_events.py:407-413 | Two repeat-free send lists with no common key join into one |
| Reminders.AtMostOncePerDay | participant_events.py:396-426 | Within one day, whatever the queries return and whichever sends fail, no (event, user) pair is reminded twice |
| CreateEvent.NextStep | create_event.py:16-24 | The steps follow in declaration order, and the poster step is the last |
| CreateEvent.OrderInjective | create_event.py:16-24 | No two steps share a position |
| CreateEvent.AsText | create_event.py:83-84 | A stored text reply converts back to the value stored |
| CreateEvent.AsPrice | create_event.py:118 | A stored price converts back to the value stored |
| CreateEvent.RowFromData | create_event.py:41-59 | A row exists exactly when every field is stored. Each column holds the stored value, the id is the one given, and the row is live |
| CreateEvent.SaveEvent | create_event.py:41-59 | The insert appends the row built from the data, with the next id, and returns that id. Data missing a field raises and inserts nothing. Other tables are unchanged |
| CreateEvent.LastEvent | create_event.py:32-38 | The autofill values exist exactly when some event does, and come from the event with the largest id, deleted or not |
| CreateEvent.PriceOffer | create_event.py:91-102 | The price autofill button is offered whenever an earlier event exists, labelled with its price |
| CreateEvent.AddressOffer | create_event.py:119-127 | The address button is offered exactly when the newest event has a non-empty address, labelled with it |
| CreateEvent.MaxOffer | create_event.py:138-146 | The capacity button is offered exactly when the newest event has a non-zero capacity, labelled with it |
| CreateEvent.TimeOffer | create_event.py:183-191 | The time button is offered exactly when the newest event has a non-empty time, labelled with it |
| CreateEvent.ParsePrice | create_event.py:110-114 | A typed price is accepted exactly when `float()` reads it and the value is not negative |
| CreateEvent.PriceReading | create_event.py:105-118 | Text equal to the autofill label takes the earlier price. Otherwise a message without text raises, and a typed price is accepted or re-prompted |
| CreateEvent.AddressReading | create_event.py:131-137 | Text equal to the autofill label takes the earlier address; otherwise the text, or NULL, is stored as sent |
| CreateEvent.ParseCount | create_event.py:150-157 | A capacity is accepted exactly when `int()` reads a positive number |
| CreateEvent.MaxReading | create_event.py:150-160 | Text equal to the autofill label takes the earlier capacity, and raises when that capacity is NULL. Otherwise a positive `int()` is accepted and anything else re-prompts |
| CreateEvent.PlaceDate | create_event.py:172-176 | Day and month are placed in this year, or in the next when this year's date has passed. The result is valid, not in the past, and has the given day and month. None exactly when the date is invalid in this year, or has passed and is invalid next year |
| CreateEvent.ResolveDate | create_event.py:169-176 | A date is accepted exactly when the text splits at `.` into two integers that place to a date. It carries the parsed day and month, is valid, not in the past, and in this year or the next |
| CreateEvent.DateReading | create_event.py:167-180 | A message without text raises; otherwise the date is accepted exactly when it resolves |
| CreateEvent.CheckTime | create_event.py:201-203 | A time is accepted exactly when its stripped text matches `%H:%M`, and the stripped text is stored |
| CreateEvent.TimeReading | create_event.py:195-206 | Text equal to the autofill label takes the earlier time; otherwise a message without text raises, and the check above decides |
| CreateEvent.SkipPosterIsDashRun | create_event.py:62-66 | A text skips the poster exactly when it is a non-empty run of the five dash characters with only white space around it |
| CreateEvent.Session.constructor | create_event.py:16-24 | A new context has no step and no data |
| CreateEvent.Session.Start | create_event.py:76-79 | Starting clears the data and asks for the name |
| CreateEvent.Session.Cancel | create_event.py:249-252 | Cancelling clears the step and the data at any point |
| CreateEvent.Session.OnName | create_event.py:82-86 | The name is stored as sent, and the dialogue asks for the description |
| CreateEvent.Session.OnDescription | create_event.py:88-103 | The description is stored, and the dialogue asks for the price with the price offer |
| CreateEvent.Session.OnPrice | create_event.py:105-129 | An accepted price is stored and the dialogue moves to the address with its offer; a rejected price changes nothing |
| CreateEvent.Session.OnAddress | create_event.py:131-148 | The address reading is stored, and the dialogue moves to the capacity with its offer |
| CreateEvent.Session.OnMax | create_event.py:150-165 | An accepted capacity is stored and the dialogue moves to the date. A rejected one changes nothing. A raise leaves the step |
| CreateEvent.Session.OnDate | create_event.py:167-193 | A resolved date is stored and the dialogue moves to the time with its offer; an unresolved date changes nothing |
| CreateEvent.Session.StoreTimeAndSave | create_event.py:207-216 | The time is stored and the event is inserted once from the data. With every field present, the new id is stored and the poster step follows. Otherwise the insert raises |
| CreateEvent.Session.OnTime | create_event.py:195-216 | An accepted time saves the event and moves to the poster step; a rejected one changes nothing |
| CreateEvent.Session.OnPoster | create_event.py:219-247 | A photo saves the event's poster. A dash-only text removes any earlier poster. Either one ends the dialogue. Anything else re-prompts and changes nothing |
| CreateEvent.Session.OnFieldMessage | create_event.py:82-193 | At the six text steps before the time, a reply either advances to the next step, asks again with nothing changed, or raises with the step kept |
| CreateEvent.Session.OnMessage | create_event.py:82-247 | With no step, the dialogue ignores messages. A step only ever advances to the next one. Events change only when leaving the time step, by one appended row. Posters change only at the poster step |
| CreateEvent.Session.FillPrice | create_event.py:255-269 | With an earlier event, its price is stored and the dialogue moves to the address; with none, nothing happens |
| CreateEvent.Session.FillAddress | create_event.py:272-286 | With an earlier event, its address is stored and the dialogue moves to the capacity; with none, nothing happens |
| CreateEvent.Session.FillMax | create_event.py:289-296 | With an earlier event, its capacity is stored and the dialogue moves to the date. A NULL capacity raises. With none, nothing happens |
| CreateEvent.Session.FillTime | create_event.py:299-312 | With an earlier event, its time is stored and the event is saved as the time step would save it. With none, nothing happens |
| CreateEvent.LabelsTakeEarlierValues | create_event.py:105-109 | Sending back any autofill label stores exactly the earlier event's value for that step |
| CreateEvent.CountRoundTrip | create_event.py:150-157 | Any positive capacity typed as digits is accepted as itself, and no count of zero or less is |
| CreateEvent.TimeRoundTrip | create_event.py:195-203 | Every zero-padded `HH:MM` is accepted and stored unchanged |
| CreateEvent.SplitDayMonth | create_event.py:169-171 | Splitting `DD.MM` on the dot gives the day and month texts |
| CreateEvent.DayMonthResolves | create_event.py:169-176 | Any digit `DD.MM` resolves to the placement of its numeric day and month |
| CreateEvent.LeapDayRefused | create_event.py:172-179 | `29.02` is refused when the current year is not a leap year, or when this year's 29 February has passed, because the next year is then not a leap year |
| CreateEvent.LeapYearFollowedByCommonYear | create_event.py:175 | A leap year is never followed by another leap year |
| AdminEvents.SoftDelete | view_event_admin.py:71-79 | Rows with the id are marked deleted, and every other row is unchanged |
| AdminEvents.SoftDeleteHides | view_event_admin.py:71-79 | After the delete, the lookup finds no event with that id, and lookups of other ids are unchanged |
| AdminEvents.SoftDeleteKeepsValid | view_event_admin.py:71-79 | Soft delete keeps ids increasing and dates valid |
| AdminEvents.SoftDeleteIdempotent | view_event_admin.py:71-79 | Deleting twice is the same as deleting once |
| AdminEvents.SoftDeleteLeavesUpcoming | view_event_admin.py:30-43 | A deleted event is gone from the upcoming list |
| AdminEvents.MarkEventDeleted | view_event_admin.py:71-79 | The events table becomes its soft delete, and no other table changes |
| AdminEvents.Write | view_event_admin.py:60-68 | An update of one column reads back as the value written; every other column, the id and the deleted flag are kept |
| AdminEvents.RowsByColumns | view_event_admin.py:60-68 | Two rows agreeing on id, flag and every editable column are equal |
| AdminEvents.WriteSameValue | view_event_admin.py:60-68 | Writing a column's own value changes nothing |
| AdminEvents.UpdateRows | view_event_admin.py:60-68 | Rows with the id are updated in that column, and every other row is unchanged |
| AdminEvents.UpdateSeenByGetEvent | view_event_admin.py:60-68 | After the update, the lookup of that id finds the updated row exactly when it found the old one; other lookups are unchanged |
| AdminEvents.UpdateKeepsValid | view_event_admin.py:60-68 | An update keeps ids and dates valid |
| AdminEvents.UpdateEventField | view_event_admin.py:60-68 | The events table becomes the update, and no other table changes |
| AdminEvents.MainKeyboard | view_event_admin.py:99-104 | The card keyboard has three buttons, all carrying the event's id |
| AdminEvents.FieldActions | view_event_admin.py:110-116 | There are seven field buttons, all distinct |
| AdminEvents.EditKeyboard | view_event_admin.py:107-117 | The edit keyboard is the back button followed by the seven field buttons, all for the event's id |
| AdminEvents.DeleteConfirmKeyboard | view_event_admin.py:120-124 | The confirmation keyboard has two buttons for the event's id |
| AdminEvents.ButtonRoutes | view_event_admin.py:161-205 | A button is taken by a handler exactly when that handler is its target, and the handler reads back the button's id |
| AdminEvents.CardButtonsHandled | view_event_admin.py:99-104 | Every button of the card and confirmation keyboards is meant for one of the admin handlers |
| AdminEvents.EditKeyboardRoutes | view_event_admin.py:107-117 | The back button has a handler; the seven field buttons have none |
| AdminEvents.EventCards | view_event_admin.py:131-154 | One card per upcoming event, in order, each with the main keyboard for its id |
| AdminEvents.AdminRoute | view_event_admin.py:161-205 | The handler chosen accepts the payload; when none is chosen, no admin handler accepts it |
| AdminEvents.FirstAccepting | view_event_admin.py:161-205 | The first handler in registration order whose filter accepts the payload |
| AdminEvents.AdminRouteOfButton | view_event_admin.py:161-205 | Every admin button's payload reaches the handler it was meant for |
| AdminEvents.Respond | view_event_admin.py:161-205 | Only `event_delete_yes:` with a readable id deletes. `event_delete_no:` cancels without reading an id. Every other admin handler raises on an unreadable id |
| AdminEvents.CardNavigation | view_event_admin.py:161-205 | Each admin card button leads to the screen meant for it, for the same event |
| AdminEvents.RespondToTarget | view_event_admin.py:161-205 | A handler given its own button's id replies with that button's screen |
| AdminEvents.OnAdminCallback | view_event_admin.py:161-205 | The reply is the routed response. Only a delete confirmation changes the events, by soft-deleting that id. Other tables are unchanged |
| Ics.ReplaceChar | ics_utils.py:8-11 | `replace` removes every occurrence of the character when the replacement does not contain it, and introduces no character from elsewhere |
| Ics.ReplaceCharAppend | ics_utils.py:8-11 | `replace` distributes over concatenation |
| Ics.EscapeChar | ics_utils.py:6-12 | Backslash, semicolon, comma and newline become two characters starting with a backslash; every other character is kept |
| Ics.EscapeEach | ics_utils.py:6-12 | Per-character escaping leaves no newline, and every semicolon or comma is preceded by a backslash |
| Ics.EscapeSinglePass | ics_utils.py:6-12 | The four chained `replace` calls equal escaping each character once |
| Ics.UnescapeEscapeEach | ics_utils.py:6-12 | Unescaping the per-character escape gives back the text |
| Ics.EscapeRoundTrip | ics_utils.py:6-12 | Unescaping the TEXT escape of section 3.3.11 of RFC 5545 gives back the original value |
| Ics.EscapeInjective | ics_utils.py:6-12 | Different texts escape differently |
| Ics.EscapedHasNoBareSpecials | ics_utils.py:6-12 | Escaped text has no newline, and no unescaped semicolon or comma |
| Ics.DescriptionText | ics_utils.py:15-18 | The description and the price line are joined by a newline, skipping whichever is empty |
| Ics.FormatDescription | ics_utils.py:15-19 | The DESCRIPTION value unescapes to the description text and holds no newline |
| Ics.EventStart | ics_utils.py:23-24 | The start exists exactly when the date is valid and the time parses as `%H:%M` after leading white space. It has the event's date and that time |
| Ics.EventEnd | ics_utils.py:25 | The end is the start plus the duration in minutes, and exists exactly when both steps succeed |
| Ics.CrLines | ics_utils.py:48 | Each line gets a CR, and an empty tail follows the last CRLF |
| Ics.JoinCrLines | ics_utils.py:48 | The payload is the CR-terminated lines joined by LF |
| Ics.PayloadSplitsIntoLines | ics_utils.py:48 | Splitting the payload on LF recovers each content line (with its CR) and nothing else, when no line holds an LF |
| Ics.IcsLines | ics_utils.py:32-47 | The calendar has fourteen content lines |
| Ics.IcsHeaderLines | ics_utils.py:33-39 | The version, producer and calendar-scale lines are the fixed ones, and the time-stamp line carries the UTC stamp with its `Z` |
| Ics.IcsLinesContents | ics_utils.py:30-47 | The lines hold the VCALENDAR and VEVENT frame, the UID, DTSTART and DTEND values, and SUMMARY, DESCRIPTION and LOCATION values that unescape to the event's name, description and address |
| Ics.IcsLinesHaveNoLineFeed | ics_utils.py:32-47 | No content line holds a line feed, so none is split or broken |
| Ics.TimeLinesHaveNoLineFeed | ics_utils.py:38-41 | The UID and time lines hold no line feed |
| Ics.TextLinesHaveNoLineFeed | ics_utils.py:42-44 | The escaped text lines hold no line feed |
| Ics.BuildEventIcs | ics_utils.py:22-50 | A file exists exactly when the event has a name, an address, a start and an end. It is named `event_<id>.ics`, and its content is the fourteen lines, each ended by CRLF |
| Ics.IcsFraming | ics_utils.py:32-48 | The built payload splits on LF back into exactly its fourteen CR-terminated lines |
| Ics.IcsReplyTo | participant_events.py:456-466 | "Not found" exactly when the payload's id reads but names no live event. "Failed" exactly when the payload has no id or the live event with that id cannot be exported. A sent file is the export of the live event with that id |

## Left out

- **Float parsing and printing.** Python's `float(text)` and `str(float)` are the parameters
  `parseFloat` and `showFloat` of `CreateEvent.Env` and `Ics.IcsLines`. NaN, infinities and
  the exact shortest-repr printing are not modelled.
- **Digits.** Only ASCII digits are modelled. Python's `int()` also accepts other Unicode
  decimal digits.
- **Clocks.** `datetime.now()` and SQLite's `date('now')` are parameters (`today`, `now`,
  `utcToday`). `datetime.utcnow()` for DTSTAMP is the parameter `dtstamp`. The sleep between
  reminder ticks and the endless loop are left out: `Reminders.Run` covers any finite sequence
  of ticks.
- **Telegram.** Message sending, editing, answering and downloading are not modelled. Each
  handler returns a reply value that names what it would show. The HTML card text
  (`format_event_text`, `build_reminder_text`) and the chat wording are not modelled.
- **Poster files.** The poster directory is the set of event ids with a saved picture. File
  names, PNG content and directory creation are not modelled.
- **Log rows.** The log's `description` is a `LogAction` value, not the Russian text, and its
  date and time are one `DateTime` value.
- **Event dates.** `event_date` is kept as the calendar date its `%Y-%m-%d` text denotes.
  Text dates of years below 1000 (which `%Y` writes unpadded) and corrupt date texts are not
  modelled.
- **Duration.** `Ics.BuildEventIcs` takes the duration as a `nat`, so negative durations are
  not modelled.
- **Encoding.** `encode("utf-8")` of the payload is not modelled; the payload is a string.
- **Participant list.** `get_event_participants` (view_event_admin.py:82-92) reads a table
  named `event_participants` that the schema does not create.
  `AdminEvents.AdminReply.ListParticipants` carries only the event id.
- **Field edits.** The edit buttons (`event_edit_<field>:`) have no handler in the admin
  router, and `EditEventState` is never entered. `AdminEvents.UpdateEventField` models the
  column update itself, with only values of the column's type.
- **Other modules.** `main.py`, `config.py` and `createdb.py` (bot start-up, routing by role,
  admin ids, schema creation) are not part of this model.
- **Reminder window.** The window is the one `is_time_in_window` computes, 10:00 to 10:02.
  A window of two minutes on either side of 10:00 is not what the code does.
- **Autofill callbacks.** The `*_fill` callbacks are not filtered by the dialogue step, so
  `CreateEvent.Session.FillTime` saves the event whenever a previous event exists. The model
  keeps this and requires only a well-typed context.
- **Calendar range.** Dates beyond year 9999 are not modelled: Python raises there, and the
  model returns None.
