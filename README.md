# Bilal Habashi loan fund backend — a Dafny model

The backend runs a small interest-free loan fund (صندوق قرض‌الحسنه). Members
hold deposits and take loans that they repay in monthly installments.
Administrators run the fund from a web panel, and members use a Telegram bot.

This project models the parts of the backend that make decisions, and proves
properties about them:

- **Solar Hijri dates** (`Shamsi`):
  - Persian-digit conversion, date normalisation and parsing;
  - month lengths under the code's leap rule (`y % 4 == 3`);
  - adding months with the day clamped to the month's length;
  - day differences through a day ordinal counted from 1300;
  - Persian number formatting with `٬` thousands separators.
- **The reminder job** (`Reminders`):
  - the per-installment reminder stages: advance reminders on the configured days, then at most two due-day reminders at least four hours apart;
  - the `reminderSent` bookkeeping;
  - the once-a-day overdue digest and the settings write that closes its gate.
- **Receipt approval and rejection** (`Receipts`):
  - the checks, in the handler's order;
  - how an approved amount is booked as repayment and/or deposit;
  - fresh payment ids;
  - template filling;
  - who is notified.
- **The Telegram settings form** (`Settings`):
  - parsing of the reminder days;
  - the boolean defaults;
  - keeping the linked administrator chat and the digest's last-sent day;
  - the read-back of a save.
- **The one-active-loan guard** (`LoansGuard`).
- **The members' bot** (`TelegramBot`):
  - the menu;
  - national-id normalisation;
  - the loan-request rules;
  - the 15-line payment list;
  - the three per-chat dictionaries of conversations in progress (`class BotState`).
- **Login tokens** (`Auth`).
- **"Reset except members"** (`ResetDb`): the administrator route, and the clean-up script that writes a fresh database file.

Shared modules:

- `Js`: JSON values with JavaScript truthiness, `String(x)` and `||`.
- `Strings`: `trim`, `split`, `join` and decimal text.
- `Lists`: `new Set`, the descending sort and `find`.
- `Store`: the database records and the shared, mutable `Db` object.
- `Targets`: the administrator destinations, trimmed and deduplicated.

The route handlers change the shared database object in place, so they are
methods on `Store.Db` with `modifies` clauses. Each method is proved against a
pure function, and the properties are proved about that function. Every HTTP
request the bot or the job makes is a parameter whose outcome may be a
failure. Every notice sent on an approval, a rejection or a reminder sweep is
an effect in a returned list; the bot's own replies are modelled only by their
outcome, apart from the payment list.

## Model

| member | source | states |
|---|---|---|
| Shamsi.ToEnglishNumAt | shamsiUtils.js:6-9 | each Persian digit becomes the ASCII digit of the same value, every other character is kept, and no Persian digit is left |
| Shamsi.ToEnglishNumIdempotent | shamsiUtils.js:6-9 | converting twice is converting once |
| Shamsi.NormalizeConvertsDigitsFirst | shamsiUtils.js:11-13 | normalisation gives the same result on a text and on its ASCII-digit form |
| Shamsi.NormalizeYearFirst | shamsiUtils.js:14-20 | `Y/M/D`, digits only, with a year of four or more digits first and a last field shorter than four, becomes `Y-MM-DD` with month and day zero-padded |
| Shamsi.NormalizeYearLast | shamsiUtils.js:14-18 | `D/M/YYYY` with the year last becomes `YYYY-DD-MM`: the first two fields are kept in their order |
| Shamsi.NormalizeDashDigits | shamsiUtils.js:11-22 | canonical `YYYY-MM-DD` text passes through unchanged |
| Shamsi.FormatDate | shamsiUtils.js:47 | the text is `YYYY-MM-DD`-shaped: digit fields separated by dashes |
| Shamsi.ParseShamsi | shamsiUtils.js:25-33 | a parsed day is never above 31 |
| Shamsi.ParseFormatDate | shamsiUtils.js:25-33 | parsing a formatted date whose day is at most 31 gives that date back |
| Shamsi.ParseFormatDateCapped | shamsiUtils.js:25-33 | a formatted date whose day is above 31 parses back with day 31 (`Math.min(d, 31)`) |
| Shamsi.ParseShamsiShape | shamsiUtils.js:25-33 | a text parses exactly when its normal form is non-empty, holds only digits and dashes, and has exactly two dashes; every other normal form gives `null` |
| Strings.SplitCount | shamsiUtils.js:28 | `split` gives one part more than there are separators |
| Strings.SplitDigits | shamsiUtils.js:28-31 | with a non-digit separator, every part is digits exactly when every character is a digit or the separator |
| Shamsi.DaysInMonth | shamsiUtils.js:51-55 | month lengths lie between 29 and 31 |
| Shamsi.YearLength | shamsiUtils.js:51-55 | a year has 366 days when `y % 4 == 3`, else 365 |
| Shamsi.MonthsLater | shamsiUtils.js:39-46 | the landing month is `months` months later (`12*y+m` grows by `months`), lies in 1..12, and the day is clamped to the landing month's length |
| Shamsi.AddedMonths | shamsiUtils.js:36-38 | the result is `''` exactly when the text does not parse or `months` is negative |
| Shamsi.AddMonthsShamsi | shamsiUtils.js:36-48 | the month-wrapping loop returns what `AddedMonths` specifies |
| Shamsi.AddedMonthsOfFormatted | shamsiUtils.js:36-48 | adding months to a formatted date formats the date `MonthsLater` gives |
| Shamsi.AddedMonthsParses | shamsiUtils.js:36-48 | the text returned parses back to the landing date |
| Shamsi.AddZeroMonths | shamsiUtils.js:36-48 | adding zero months to a valid date gives its canonical text back |
| Shamsi.DaysBeforeMonthClosed | shamsiUtils.js:97 | for months 1 to 12, the days before month `m` are `31(m-1)` for `m <= 7`, else `186 + 30(m-7)` |
| Shamsi.ToDays | shamsiUtils.js:95-100 | the loop over the earlier months computes the day ordinal |
| Shamsi.DiffDays | shamsiUtils.js:91-94 | the difference exists exactly when both texts parse |
| Shamsi.DiffDaysShamsi | shamsiUtils.js:91-102 | the method returns what `DiffDays` specifies |
| Shamsi.DiffDaysOfFormatted | shamsiUtils.js:91-102 | from one formatted date to another the difference is the second's day ordinal minus the first's |
| Shamsi.DiffDaysSelf | shamsiUtils.js:91-102 | a parsable date is 0 days from itself |
| Shamsi.DiffDaysAntisymmetric | shamsiUtils.js:91-102 | `diff(a, b) == -diff(b, a)`, and both are null together |
| Shamsi.NextDayOrdinal | shamsiUtils.js:95-100 | consecutive days are one ordinal apart, including from the last day of month 12 into the next year |
| Shamsi.NextDay | shamsiUtils.js:51-55 | the day after a valid date is a valid date |
| Shamsi.ConsecutiveDaysDifferByOne | shamsiUtils.js:91-102 | a valid date and the next day's text differ by exactly 1 |
| Shamsi.GroupThousandsShape | shamsiUtils.js:107 | separators sit exactly every four characters from the right, with digits elsewhere, and dropping them gives back the digits |
| Shamsi.ToPersianDigits | shamsiUtils.js:108 | the same length, and no ASCII digit is left |
| Shamsi.FormatNumTelegram | shamsiUtils.js:104-109 | null gives `'۰'`, and a negative number keeps its minus sign in front |
| Shamsi.FormatNumNegative | shamsiUtils.js:107-108 | a negative number's text is a minus sign in front of its magnitude's text: no separator is put after the sign |
| Shamsi.FormatNumNegativeReads | shamsiUtils.js:104-109 | a negative number's text, read back (Persian digits to ASCII, separators dropped), is its signed decimal text |
| Shamsi.FormatNumRoundTrip | shamsiUtils.js:104-109 | the formatted text has no ASCII digit, and reading it back (Persian digits to ASCII, separators dropped) gives the number's decimal text and value |
| Reminders.KeyInjective | loanReminders.js:65 | distinct (month, stage) pairs never share a `reminderSent` key |
| Reminders.SetSent | loanReminders.js:69-74 | only `reminderSent` changes, and only at the one key; every other key reads as before |
| Reminders.GetSetSent | loanReminders.js:63-74 | `getSent` after `setSent` reads the value set, and other (month, stage) pairs read as before |
| Reminders.PaidBounds | loanReminders.js:102-104 | the paid count is the number of whole installments in what was repaid, and 0 when the installment is not positive |
| Reminders.PaidMonotone | loanReminders.js:102-104 | paying the balance down never lowers the paid count |
| Reminders.RepaidCoversAllMonths | loanReminders.js:102-108 | with a positive installment, a paid-off balance covers every month of the term |
| Reminders.RepaidLoanSilent | loanReminders.js:102-108 | a paid-off loan with a positive installment gets no member reminder |
| Reminders.WrittenTouchesOnlyStageKeys | loanReminders.js:124-136 | a reminder's PATCH changes only `reminderSent`, and there only the stage's own keys |
| Reminders.WrittenReads | loanReminders.js:124-136 | after an advance reminder its day key reads `true`; the due counter reads 1 after the first due reminder and 2 after the second |
| Reminders.DueSpacing | loanReminders.js:125-137 | when 0 is not a reminder day: after the first due-day reminder at time `t`, nothing is sent before `t` plus four hours, and the second one is due from then on |
| Reminders.StageNotRepeated | loanReminders.js:118-137 | once a stage is written back, no later sweep sends that stage again |
| Reminders.AtMostTwoDueSends | loanReminders.js:125-137 | over successive sweeps, each seeing the previous one's write, one installment gets at most two due-day reminders |
| Reminders.ReminderDays | loanReminders.js:80-82 | the reminder days are never empty: the stored array, or `[7, 3, 1]` |
| Reminders.ActiveLoans | loanReminders.js:89 | exactly the loans whose status is `active` are kept |
| Reminders.MemberMapLast | loanReminders.js:90-91 | a member id is in the map exactly when some member has it, and it holds the last such member |
| Reminders.BuildMemberMap | loanReminders.js:90-91 | the `forEach` loop builds `MemberMap` |
| Reminders.RemindMonth | loanReminders.js:107-138 | one pass of the month loop gives that month's reminder and PATCH, or nothing |
| Reminders.RemindLoan | loanReminders.js:99-140 | the month loop of a loan gives the effects of its months in order |
| Reminders.RemindMembers | loanReminders.js:95-141 | the loop over active loans gives the member-reminder phase |
| Reminders.PatchesFromSnapshot | loanReminders.js:124-136 | every PATCH of the phase carries its loan as read at the start of the sweep, plus one stage of one month |
| Reminders.StageRepeatsAfterLostUpdate | loanReminders.js:124-136 | when one sweep writes two months of one loan, the second write restores the first month's records, so its stage is decided again |
| Reminders.TwoDecisionsOneSweep | loanReminders.js:107-137 | on a loan's first due day, a sweep whose reminder days include the gap to the second due date decides stages for both months |
| Reminders.TwoDecisionsExample | loanReminders.js:107-113 | a loan dated 1402-01-15 has due dates 1402-02-15 and 1402-03-15, and these are 0 and 31 days from 1402-02-15 |
| Reminders.Threaded | loanReminders.js:107-137 | the loan as written after months 1 to `upTo` differs from the loan read only in `reminderSent` |
| Reminders.DecisionOnDay | loanReminders.js:107-118 | an unpaid month whose due date is `diff` days away gets the stage that `diff`, the reminder days and the month's records call for |
| Reminders.ThreadedNoRepeat | loanReminders.js:118-137 | when each month is decided on the loan as written by the months before it, no record is lost and no stage repeats |
| Reminders.FirstOverdueIsEarliest | loanReminders.js:159-175 | the month found is unpaid, overdue and within the term, and no earlier unpaid month is overdue; none found means none is overdue |
| Reminders.OverdueItemsPerLoan | loanReminders.js:150-176 | every digest line belongs to its own loan, at most one line per loan, in the loans' order |
| Reminders.LoanOverdueScan | loanReminders.js:159-175 | the month loop with its `break` finds the loan's earliest overdue line |
| Reminders.PaidOf | loanReminders.js:156-158 | the job's installment arithmetic computes the paid count |
| Reminders.CheckOverdue | loanReminders.js:161-164 | the due date of a month, and whether it lies before today |
| Reminders.CollectOverdue | loanReminders.js:150-176 | the loop over loans collects the digest lines |
| Reminders.Broadcast | loanReminders.js:194-198 | one send per target, in order, all with the same message |
| Reminders.RunLoanReminders | loanReminders.js:76-222 | the job's effects are those of `Run`, and the settings change only by recording today when the digest went out |
| Reminders.SendDigest | loanReminders.js:178-215 | the digest's messages are sent, and today is written as the last-sent day exactly when the digest records it |
| Reminders.DigestGate | loanReminders.js:144-149 | recording today closes the gate for the rest of the day, and it reopens on any other day when a digest flag is set |
| Reminders.MarkedOnlyWithItems | loanReminders.js:147-209 | today is recorded only when the gate was open and the digest had at least one line |
| Reminders.DigestOncePerDay | loanReminders.js:147-149 | over successive sweeps, each seeing the previous one's write, a second run on the same day sends only member reminders |
| Receipts.FormatTemplate | routes/receiptSubmissions.js:16-19 | a template that is not text gives `''`; a text one is filled placeholder by placeholder |
| Receipts.NoticeName | routes/receiptSubmissions.js:202 | the name the approval notices carry is never blank: the receipt's name, else the member's full name, else the placeholder `عضو بدون نام` |
| Receipts.FillPrint | routes/receiptSubmissions.js:16-19 | filling a printed template renders it: every `{key}` is replaced by its value and nothing else changes |
| Receipts.FillText | routes/receiptSubmissions.js:16-19 | text without `{` passes through unchanged |
| Receipts.FillHole | routes/receiptSubmissions.js:16-19 | one `{key}` becomes the context value, or `''` when the value is missing |
| Receipts.CheckApproval | routes/receiptSubmissions.js:82-131 | refusals are 400 or 404; an accepted receipt is pending, its member exists, the amount is positive and the date is not blank, and a `contribution_repayment` covers the installment |
| Receipts.UnknownReceipt | routes/receiptSubmissions.js:84-88 | an id no receipt has is answered with 404 |
| Receipts.Book | routes/receiptSubmissions.js:121-183 | the booked entries add up to the amount; the deposit grows by the contribution entries; the balance drops by the repayment entries, never below 0; a contribution leaves the balance alone |
| Receipts.BookBalance | routes/receiptSubmissions.js:147-173 | a repayment never leaves a negative balance or raises a non-negative one (unless the installment itself is negative), and the deposit never shrinks |
| Receipts.NextPayIdFresh | routes/receiptSubmissions.js:106-107 | the next payment id is above every existing payment's id |
| Receipts.PushedIds | routes/receiptSubmissions.js:111-119 | the pushed payments get consecutive ids from the first one |
| Receipts.PushPayment | routes/receiptSubmissions.js:111-119 | a payment is appended with the current id, and the counter moves on by one |
| Receipts.BookPayments | routes/receiptSubmissions.js:121-183 | the handler's branches push the entries `Book` gives and leave the member as `Book` says |
| Receipts.ApplyApproval | routes/receiptSubmissions.js:121-186 | an accepted approval pushes the payments, books the member and marks the receipt approved |
| Receipts.Approve | routes/receiptSubmissions.js:82-248 | a refused approval changes nothing and sends nothing; an accepted one changes exactly the payments, that member and that receipt, even when the write that follows throws; then nothing is sent and no answer goes out; otherwise the approval notices are sent, and the answer is 200 unless preparing the main administrator's notice throws |
| Receipts.ApproveOnce | routes/receiptSubmissions.js:89-92 | an approved receipt is no longer pending, so approving it again is refused with 400 |
| Receipts.CheckRejection | routes/receiptSubmissions.js:251-265 | refusals are 400 or 404; an accepted receipt is pending and matches the id, and its member exists |
| Receipts.RejectNotices | routes/receiptSubmissions.js:272-278 | exactly one notice, to the member's chat and carrying the rejection message behind its fixed head, when the bot runs and the member has a chat id; none otherwise |
| Receipts.Reject | routes/receiptSubmissions.js:251-280 | only the receipt changes, and only a pending one; a write that throws leaves no notice and no answer; otherwise the answer is 200 and the member's notice carries the very message stored on the receipt |
| Receipts.RejectOnce | routes/receiptSubmissions.js:258-261 | after a rejection neither an approval nor a second rejection is accepted |
| Receipts.DispatchShape | routes/receiptSubmissions.js:216-247 | the notices start with the member's and the admin targets', followed by at most the main administrator's; the reply is lost exactly when `notifyTarget` is truthy but not text, or when the main administrator is due a notice and `paymentAdminTemplate` is truthy but not text |
| Receipts.AdminGetsGroupText | routes/receiptSubmissions.js:231-236 | without its own template, the main administrator gets the group text whenever the groups get it |
| Receipts.GroupNoticesReachTargets | routes/receiptSubmissions.js:224-230 | with group notices on, every admin target gets the group text, in order, after the member's notice |
| Targets.TrimmedTargets | routes/receiptSubmissions.js:191-199 | no destination is blank, and there are no more than candidates |
| Targets.TrimmedTargetsMembers | routes/receiptSubmissions.js:191-199 | a text is a destination exactly when it is the trimmed text of a truthy candidate and is not blank |
| Targets.AdminTargets | routes/receiptSubmissions.js:191-200 | at most four destinations, none blank, none repeated |
| Targets.AdminTargetsMembers | loanReminders.js:183-189 | a text is an admin target exactly when one of the four candidates is truthy and trims to it |
| Targets.TrimmedOr | loanReminders.js:182 | `None` exactly when the value is truthy but not text (where `.trim` throws); otherwise the trimmed text |
| Lists.Dedup | routes/receiptSubmissions.js:200 | no repeats, and the same values as the input |
| Lists.DedupOrder | routes/receiptSubmissions.js:200 | the values come out in the order of their first occurrences in the input |
| Lists.FirstIndexUnique | routes/receiptSubmissions.js:200 | a position holding a value with no earlier copy is that value's first occurrence |
| Lists.DedupIdempotent | loanReminders.js:189 | deduplicating twice is deduplicating once |
| Lists.DedupKeepsFirst | loanReminders.js:189 | the first value stays first |
| Lists.SortDesc | routes/settings.js:69 | the same values (as a multiset), in non-increasing order |
| Lists.SortedUnique | routes/settings.js:69 | two non-increasing lists with the same values are equal |
| Lists.SortDescIdempotent | routes/settings.js:69-71 | sorting a sorted list changes nothing |
| Lists.FindIndex | routes/receiptSubmissions.js:85 | the index returned is the first that satisfies the test, and -1 means none does |
| Settings.TrimmedField | routes/settings.js:38-41 | null or undefined gives `''`; text gives its trimmed form; the result is already trimmed |
| Settings.TextField | routes/settings.js:53-66 | null or undefined gives `''`; text is kept as it is, spaces included |
| Settings.NotifyTarget | routes/settings.js:41-46 | a non-blank chat in the form is used; a blank one keeps the stored chat; the save throws when the stored value is truthy but not text |
| Settings.NotifyTrimmed | routes/settings.js:41-46 | the chat kept is always trimmed |
| Settings.KeepDaysMembers | routes/settings.js:69 | a day is kept from an array exactly when the array holds it as a non-negative number |
| Settings.ParseInt | routes/settings.js:71 | `parseInt` gives a number exactly when, after leading white space only, there is a digit, or a sign followed by a digit |
| Settings.ParseIntOfText | routes/settings.js:71 | a number's decimal text, bare or behind `+` or `-`, and followed by anything but a digit, parses to that number, negated behind `-` |
| Settings.ParseIntSkipsSpace | routes/settings.js:71 | a leading white-space character does not change what `parseInt` reads |
| Settings.DigitPrefixOf | routes/settings.js:71 | the digits read from a digit run followed by a non-digit are that run |
| Settings.ParsedDays | routes/settings.js:68-72 | the days are non-negative and in non-increasing order: the array's kept numbers or the text's parsed numbers, and `[7, 3, 1]` for anything else |
| Settings.StoredDays | routes/settings.js:68-72 | the stored days are never empty, never negative and non-increasing; they are the parsed days when any survive |
| Settings.NonNegativeSorted | routes/settings.js:69-71 | sorting keeps the days non-negative |
| Settings.DaysTextRoundTrip | routes/settings.js:70-72 | days typed as `7,3,1`, in any order, are stored as those days, largest first |
| Settings.TokensJoin | routes/settings.js:71 | comma-joined tokens without separators split back into those tokens |
| Settings.KeepParsedTexts | routes/settings.js:71 | every number's decimal text parses back to that number |
| Settings.StoredDaysStable | routes/settings.js:68-72 | stored days, saved again, are stored unchanged |
| Settings.LastSent | routes/settings.js:78 | the digest's last-sent day is carried over, and `''` when there are no settings |
| Settings.SavedForm | routes/settings.js:47-76 | the chat is the one given; `sendReceiptMember` is on unless `false`; each digest flag is on only when `true`; a text `paymentAdminTemplate` is kept; the days are the stored days |
| Settings.Saved | routes/settings.js:36-103 | the save fails exactly when keeping the stored chat throws |
| Settings.SavedClean | routes/settings.js:79-103 | whatever the body held, a save has trimmed destinations, text templates and days already in stored form |
| Settings.LastSentApart | routes/settings.js:79-103 | the last-sent day is stored beside the form's keys, so it hides none of them |
| Settings.GetAll | routes/settings.js:79-103 | every key of the stored form reads back its field |
| Settings.SaveKeepsGate | routes/settings.js:78-102 | saving never reopens the day's overdue digest: the gate is open after a save exactly when a digest flag is on and the carried-over day is not today |
| Settings.StoredGate | routes/settings.js:78-102 | the gate on stored settings reads the form's digest flags and the stored last-sent day |
| Settings.SweepReadsSavedDays | routes/settings.js:97 | the reminder job reading saved settings gets the stored days |
| Settings.FormOf | routes/settings.js:7-33 | on read, `sendReceiptMember` is on unless `false`, `sendOverdueListToAdmin` is on only when `true`, and the days are always an array |
| Settings.ViewDays | routes/settings.js:27 | on read an array is shown as it is and anything else as `[7, 3, 1]` |
| Settings.ViewDefaults | routes/settings.js:7-33 | with nothing stored, every notice is on, the digest is off and the days are `[7, 3, 1]` |
| Settings.ReadBack | routes/settings.js:7-103 | reading back a save shows exactly the form that was saved |
| Settings.SaveUnchanged | routes/settings.js:7-103 | saving the form exactly as the panel shows it leaves the stored settings as they were |
| Settings.KeepAllDays | routes/settings.js:69 | days in stored form survive the array filter unchanged |
| Settings.ResaveForm | routes/settings.js:37-76 | a form already in stored form, saved with its own chat, comes back unchanged |
| Settings.ResaveNotify | routes/settings.js:41-46 | saving the shown chat again keeps it, blank or not |
| Settings.SaveSettings | routes/settings.js:36-141 | a throwing save changes nothing; otherwise the new settings are stored before persisting, and the answer is 200 with the form or 500 |
| LoansGuard.HasActive | middleware/loansGuard.js:11-13 | true exactly when some loan of the member is active or has no status |
| LoansGuard.Guard | middleware/loansGuard.js:6-20 | the request is refused with 400 exactly when it names a member who has a loan that is active or has no status; otherwise it passes |
| LoansGuard.GuardKeepsOneActive | middleware/loansGuard.js:6-20 | a loan added for a member the guard let through keeps every member at one active loan at most |
| TelegramBot.MenuActionsAgree | telegramBot.js:186-193 | the keyboard labels lead to exactly the actions an inline button may name (telegramBot.js:626-627) |
| TelegramBot.NationalDigits | telegramBot.js:206-212 | only ASCII digits come out, never more than went in |
| TelegramBot.NormalizeNationalId | telegramBot.js:202-214 | the result is ASCII digits; anything but a non-empty string gives `''` |
| TelegramBot.NormalizeNationalIdLoop | telegramBot.js:202-214 | the character loop computes `NormalizeNationalId` |
| TelegramBot.NationalDigitsByConversion | telegramBot.js:206-212 | the same as converting Persian digits first and then keeping ASCII digits; every other character, Arabic-Indic digits included, is dropped |
| TelegramBot.NormalizeIdempotent | telegramBot.js:202-214 | normalising a normalised id changes nothing |
| TelegramBot.PersianIdAccepted | telegramBot.js:202-214 | an id typed in Persian digits normalises to the ASCII digits of the same values |
| TelegramBot.PersianDigitsOf | telegramBot.js:206-212 | the digits of an id typed in Persian come back as the ASCII digits |
| TelegramBot.LoanRequestDecision | telegramBot.js:437-490 | in order: a positive loan balance blocks; else a pending request blocks once its reply has gone out; else an approved one does; a reply that fails falls through to creating the request |
| TelegramBot.CreateWhenClear | telegramBot.js:447-490 | a request is created exactly when the member owes nothing and either no earlier request is pending or approved, the earlier requests could not be read, or the blocking reply failed |
| TelegramBot.Shown | telegramBot.js:398 | the first `min(n, 15)` payments, in order |
| TelegramBot.PaymentListReply | telegramBot.js:392-403 | no payments gives the "none" text; up to 15 lines are listed under the header; more than 15 lists the first 15 and adds `...` |
| TelegramBot.PaymentListLines | telegramBot.js:392-403 | for lines without a newline, the text after the header splits line by line into exactly the payments shown (the first 15), followed by an empty line and `...` when there were more |
| TelegramBot.BotState.constructor | telegramBot.js:196-200 | all three dictionaries start empty |
| TelegramBot.BotState.Start | telegramBot.js:219-276 | `/start` asks for the national id exactly when no member is linked to the chat; the administrator link and a failed lookup change nothing |
| TelegramBot.BotState.Photo | telegramBot.js:279-308 | only a chat waiting for a receipt sends one, and only a message that carries a photo is uploaded; the wait is cleared unless the upload or its reply fails and the error reply then fails too |
| TelegramBot.BotState.Text | telegramBot.js:311-368 | a non-blank, non-command message from a chat awaiting a rejection reason becomes that reason and ends the wait; a menu label yields its action; the wait for a national id ends only when the id has ten digits, exactly one member holds it and the link was recorded; the receipt wait is untouched |
| TelegramBot.BotState.RunMenuAction | telegramBot.js:414-530 | a balance or list action from an unlinked chat asks for the national id and remembers the action; a loan request is decided by `LoanRequestDecision` |
| TelegramBot.BotState.Button | telegramBot.js:560-631 | `loan_reject_{id}` makes the chat's next message the reason; `payment_personal` makes its next photo the member's receipt; only the listed actions run |
| Auth.WithoutPassword | routes/auth.js:14 | the user as answered has no `password` field and every other field unchanged |
| Auth.Login | routes/auth.js:6-20 | 401 exactly when no user has both the username and the password sent; otherwise a matching user without the password and the token `token_{id}_{now}` |
| Auth.TokenUserId | routes/auth.js:25-30 | an id is read only from a `token_` token, and it is non-empty and holds no `_` |
| Auth.UserById | routes/auth.js:31 | none exactly when no user's id reads as the text; otherwise a user whose id does |
| Auth.FindsOwnId | routes/auth.js:31 | with unique ids, looking a user up by its own id finds that user |
| Auth.UserOfHeader | routes/resetDb.js:10-19 | a user is found only through the id of a `token_` token |
| Auth.MeOf | routes/auth.js:22-35 | 401 exactly when the header names no user, and the user answered has no password |
| Auth.TokenNamesId | routes/auth.js:18-29 | an issued token reads back the id it was issued for, when that id is not empty and holds no `_` |
| Auth.HeaderCarries | routes/auth.js:23-24 | an issued token reads the same bare or after `Bearer ` |
| Auth.LoginRoundTrip | routes/auth.js:6-35 | with unique ids, `/auth/me` with the token a login issued (bare or after `Bearer `) answers that same user, when the id is non-empty and holds no `_` |
| ResetDb.Zeroed | routes/resetDb.js:32-37 | the three amounts are 0, and the identity fields are unchanged |
| ResetDb.ZeroedMembers | routes/resetDb.js:32-37 | the same members, in the same order, each zeroed |
| ResetDb.ZeroedFixed | routes/resetDb.js:32-37 | members already zeroed are left as they are |
| ResetDb.ZeroedIdempotent | routes/resetDb.js:32-40 | zeroing twice is zeroing once |
| ResetDb.Permission | routes/resetDb.js:22-28 | 401 exactly when the header names no user; the reset may go ahead exactly when that user's role is `admin`; 403 otherwise |
| ResetDb.ResetCollections | routes/resetDb.js:30-46 | users stay, members are zeroed, the other collections are emptied, the fund is `[{id:'main', cashBalance:0}]`, and the Telegram settings are untouched |
| ResetDb.Reset | routes/resetDb.js:21-59 | a refused request (401, 403) changes nothing; an administrator's request resets the collections, and the answer is 500 only when persisting fails |
| ResetDb.ResetTwice | routes/resetDb.js:39-46 | resetting twice leaves every collection as resetting once, and a refused request twice changes nothing |
| ResetDb.Clear | scripts/clear-db-except-members.js:29-49 | a missing `users` list becomes empty; members keep their count, order and other fields with the amounts zeroed; every other collection is empty |
| ResetDb.ResetAgreesWithClear | scripts/clear-db-except-members.js:40-49 | the script's file and the route's reset agree on all eight collections; only the route keeps the Telegram settings |

## Left out

- `gregorianToShamsi` and `todayShamsi` (shamsiUtils.js:58-88) are not modelled. As written they assign to `const` bindings and always throw. The reminder job instead takes today's date and the current time as parameters.
- HTTP plumbing is not modelled: the bot's and the job's requests to the backend, Telegram's transport, webhooks and polling. Each request's outcome is a parameter, and each notice the routes and the job send is an effect in a list. The bot's replies are modelled by their outcome only; their texts are not modelled, except the payment list.
- The database is taken to hold every collection. A missing `users` or `members` collection makes `.find` throw (routes/auth.js:8, routes/receiptSubmissions.js:93 and :261); the model does not have that case.
- Persistence is not modelled: the database file, PostgreSQL, and the receipt image download. Whether writing the database succeeds is a boolean parameter of the handlers that write it. A failed write answers 500 where the handler catches it (`ResetDb.Reset`, `Settings.SaveSettings`), and no answer at all where it does not (`Receipts.Approve`, `Receipts.Reject`).
- `formatShamsiForDisplay` is not part of this model: `TelegramBot.PaymentLine` takes the date as already displayed.
- The loans route that stores a reminder PATCH is not part of this model. A PATCH is taken to store the loan it carries, `reminderSent` included.
- Numbers are integers within JavaScript's safe-integer range. The source's numbers are doubles: `String(Math.round(n))` switches to exponent form from 1e21, and integers above 2^53 lose precision; `FormatNumTelegram` and `FormatNumRoundTrip` do not capture this. NaN and fractions are left out, apart from `null`/NaN as `None` in `formatNumTelegram`. `Number(...)` on text reads digits only.
- Settings.ParsedDays: non-integer numbers in an array of reminder days are not modelled, and neither is the token `-0`, which `parseInt` reads as a non-negative zero.
- Receipts.FormatTemplate: placeholder names that are keys of `Object.prototype` (for example `{constructor}`) are not modelled. Neither is a menu label such as `constructor` in `MENU_TO_ACTION`.
- Settings.SaveSettings: a save that throws is an unhandled rejection in an async handler and never answers; the model answers `Hang`.
- The `/start admin` branch is modelled only as changing none of the bot's dictionaries. The `toLowerCase` of the command text is left out.
- TelegramBot.BotState.Button: the chat id is an integer, and 0 stands for an absent chat (`!chatId`).
- TelegramBot.BotState.Text: a menu label only yields its action. The action itself runs as `RunMenuAction`.
- Reminders.FirstSentTime: `dueFirstAt` is stored as ISO text (`new Date().toISOString()`, loanReminders.js:133) and read back with `new Date(...)` (loanReminders.js:129). The model stores the millisecond count that text denotes and reads it back unchanged. Parsing date text is not modelled: any text value reads as an invalid date.
- Reminders.MemberMap: `memberMap` is a plain object, so a `memberId` that names an `Object.prototype` key (for example `constructor`) finds an inherited value (loanReminders.js:90-91, 152-153). The model's map holds only the members, so such an id finds nothing.
- Receipts.BookBalance: states the bound for installments that are not negative. A negative installment (a loan with a negative amount or term) can raise the balance, as the code does.
- Reminders.AtMostTwoDueSends, Reminders.DigestOncePerDay: sweeps are taken to run one after another, each seeing the previous sweep's writes. The hourly timer (server.js:17-18) does not guard against a sweep still awaiting its fetches and sends (loanReminders.js:85-88, 192-203). Two overlapping sweeps can both read the same `reminderSent` or `overdueListLastSentDate` and repeat a stage or the digest; overlapping sweeps are not modelled.

## Findings

| source | as written | input that shows it | evidently intended | confidence | as-written member | corrected member |
|---|---|---|---|---|---|---|
| loanReminders.js:124-136 | Every PATCH of a sweep is built from the loan as read at the start of the sweep, so when two months of one loan get a reminder in the same sweep, the second PATCH stores a `reminderSent` without the first month's record | A loan dated 1402-01-15, nothing repaid, nothing recorded, reminder days `[31]`, sweep on 1402-02-15: month 1 gets its first due-day reminder and month 2 its 31-day reminder; the month-2 PATCH erases `m1-due`, so the next sweep sends month 1's first due-day reminder again | Each month's record survives the sweep, so no reminder is sent twice | medium, not executed | Reminders.StageRepeatsAfterLostUpdate | Reminders.ThreadedNoRepeat |

`Reminders.TwoDecisionsOneSweep` and `Reminders.TwoDecisionsExample` show that the input above reaches both months in one sweep. `Reminders.Threaded` decides each month on the loan as written by the months before it. `Reminders.RunLoanReminders` models the job as the code does it.
