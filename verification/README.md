# Telegram submission bot — Dafny model

A model of the webhook handler of a Telegram bot through which reporters
submit money transfers for an administrator to approve. It covers three parts:

- The per-chat conversation that collects a submission.
  - "New Send" opens it at the USERNAME step.
  - A valid sender handle moves it to the AMOUNT step.
  - A number files a `pending` record and ends it.
- The inline-button callbacks.
  - Their payloads have the form `action:dateId:chatId`.
  - A table maps each action name to a stored status and a notice for the reporter.
  - A button press changes the status of one record in the store.
- The reports, computed from a snapshot of the record store:
  - the reporter's approved total;
  - the per-day view with its daily total;
  - the reporter's list of days, in rows of two buttons;
  - the administrator's "Total Info" counts with grand totals;
  - the administrator's "All Submissions", grouped by user and then by day.

The handler's network calls become values of `Bot.Effect`:

- sending, editing and posting messages to the messaging gateway;
- inserting and patching rows of the record store.

The handler's other inputs become parameters:

- the store's contents, as a snapshot;
- the clock, as its ISO-8601 text;
- the administrator's chat id.

The process-wide `userState` map is an ordinary `map<int, ConvState>` that
`Bot.HandleMessage` returns updated.

Modules:

- `Text`: the JavaScript string operations the handler relies on.
  - `trim`, `toLowerCase` against a lower-case word, `startsWith`, `slice`;
  - `split(":")` and `join`;
  - the default `sort()` order.
- `Numbers`: decimal text of amounts and chat ids.
- `Records`: the stored row, the reporter identity and the date id.
- `Handles`: the sender-handle check and its normalisation.
- `Callbacks`: buttons, payloads and the action table.
- `Grouping`: bucketing by key.
- `Reports`: the five reports.
- `Bot`: message and callback dispatch.

Behaviour of the handler worth knowing, all of it modelled:

- `/start` shows the menu but keeps the chat's conversation state.
- Menu text that matches no label does nothing.
- A payload that merely starts with `accept`, `cancel` or `paid` still takes
  the status branch, and writes a blank status.
- The later `paid:` branch can never run (`Bot.PaidBranchIsDead`).

## Model

| member | source | states |
|---|---|---|
| Text.Trim | pages/api/telegram.js:321 | The trimmed text is the infix of the input that neither starts nor ends with white space; everything cut off on either side is white space. |
| Text.Split | pages/api/telegram.js:451 | `split(":")` yields at least one part, no part contains the separator, and joining the parts gives the input back. |
| Text.SplitJoin | pages/api/telegram.js:451 | Splitting a join of separator-free parts gives exactly those parts back. |
| Text.LexLessTotal | pages/api/telegram.js:293 | The string order of `sort()` is total on distinct strings. |
| Text.LexLessTransitive | pages/api/telegram.js:293 | The string order of `sort()` is transitive. |
| Numbers.NatToString | pages/api/telegram.js:398-399 | A number is written as non-empty digits with no leading zero, and reading those digits gives the number back. |
| Numbers.ParseDigitsRendersBack | pages/api/telegram.js:356-364 | A canonical digit string that passes `^\d+$` is the rendering of the value `Number` reads from it. |
| Numbers.IntToStringRoundTrip | pages/api/telegram.js:398-399 | A chat id written into a payload contains no ':' and `Number` reads it back unchanged, negative group ids included. |
| Records.Identity | pages/api/telegram.js:63 | The identity is the username if present, else the first name, else `NoUsername`; it is never empty. |
| Records.DateIdOf | pages/api/telegram.js:365 | Whatever the clock text, the date id has at most 14 characters and no ':'. |
| Records.DateIdOfTimestamp | pages/api/telegram.js:365 | For a well-formed `toISOString` value the date id is the 14 digits YYYYMMDDHHMMSS, and its first eight characters are the calendar day. |
| Handles.IsValidUsername | pages/api/telegram.js:21 | The optional-'@', maximal-word-run reading of `^@?[a-zA-Z0-9_]{5,32}$` accepts exactly the pattern's language. |
| Handles.Normalize | pages/api/telegram.js:342 | A valid handle ends up with exactly one leading '@', and nothing else about it changes. |
| Handles.ResolveSender | pages/api/telegram.js:320-345 | `self` without an own username is the only missing-handle error. `self` with one stores `@username` exactly when the username is 5 to 32 word characters. Any other text is trimmed and stored with one '@' exactly when it matches the pattern. Every stored sender is normalized. |
| Callbacks.UpdateFor | pages/api/telegram.js:453-469 | Each of `accept`, `cancel` and `paid` selects its own status and notice. Each status comes from exactly one name. Any other name leaves both blank. |
| Callbacks.Buttons | pages/api/telegram.js:127-138 | Every button shown under a record is a lifecycle step from its status (pending to accepted or canceled, accepted to paid). Every such step has exactly one button. Every payload names the record's date id and chat. |
| Callbacks.PayloadIsStatusPayload | pages/api/telegram.js:449 | Every payload a button carries takes the status branch. |
| Callbacks.PayloadRoundTrip | pages/api/telegram.js:451 | A payload built for a date id without ':' decodes to its action name, date id and chat text, and that text reads back as the chat id. |
| Grouping.GroupBy | pages/api/telegram.js:97-101 | There is one bucket per key that occurs, and it holds exactly that key's records in input order. |
| Grouping.GroupByPartition | pages/api/telegram.js:97-101 | A record sits in its own key's bucket as often as it occurs in the input, and in no other bucket. |
| Grouping.GroupByCovers | pages/api/telegram.js:97-101 | Every input record lands in the bucket of its key. |
| Reports.ApprovedTotalContribution | pages/api/telegram.js:263-269 | Wherever a record sits in the snapshot, it adds its amount to a user's total when it is that user's and accepted, and nothing otherwise. |
| Reports.ApprovedTotalConcat | pages/api/telegram.js:263-269 | The approved total over two snapshots laid end to end is the sum of their totals. |
| Reports.DailyTotalIsApprovedTotalOfDay | pages/api/telegram.js:503-523 | The daily total of the listed rows equals the approved total taken over that day's records only. |
| Reports.DayTotalSkipsPending | pages/api/telegram.js:519-523 | An accepted and a pending record of the same day are both listed, but the total is the accepted amount alone. |
| Reports.TotalInfo | pages/api/telegram.js:173-203 | Users are listed once each, exactly those with counters. Each grand total is the number of records with that status. |
| Reports.TotalInfoUsers | pages/api/telegram.js:178-187 | Exactly the user keys that occur get counters, pending-only users and `unknown` included. |
| Reports.TotalInfoCounts | pages/api/telegram.js:189-202 | Each user's counter for a status is the number of that user's records with that status. |
| Reports.GrandTotalIsSumOfUsers | pages/api/telegram.js:189-227 | Each grand total is the sum of the per-user counters shown. |
| Reports.TotalInfoAsWritten | pages/api/telegram.js:181-202 | On the handler's plain object, exactly the users not named like an inherited member keep their counters, equal to the corrected ones, and are listed once each. Inherited names get no counters and are not listed. The grand totals are unchanged. |
| Reports.TotalInfoAsWrittenAgrees | pages/api/telegram.js:173-203 | When no user key is an inherited name, the handler's fold and the corrected one agree. |
| Reports.TotalInfoAsWrittenLosesUser | pages/api/telegram.js:181-227 | One accepted record of user `toString` is counted in the grand total, but no user is listed. |
| Reports.DaysOf | pages/api/telegram.js:281 | A day appears exactly when the user has a record on it, so the list is empty exactly when the user has no record. |
| Reports.Dedup | pages/api/telegram.js:293 | `new Set` keeps each day once and drops none. |
| Reports.SortDescending | pages/api/telegram.js:293 | `sort().reverse()` is a permutation into descending order. |
| Reports.DateList | pages/api/telegram.js:293 | The offered days are strictly descending, and a day is offered exactly when the user has a record on it. |
| Reports.PairUp | pages/api/telegram.js:296-305 | Rows of one or two days, only the last possibly short, about half as many rows as days, reading back as the list. |
| Reports.PairUpIndex | pages/api/telegram.js:296-305 | Button j of row i is day 2i+j of the list. |
| Reports.SubmissionGroups | pages/api/telegram.js:97-115 | There is one bucket per user that occurs. Inside it, the user's records are bucketed by the first eight characters of the date id. |
| Reports.SubmissionGroupsPartition | pages/api/telegram.js:97-115 | Each record appears under its own user and day as often as in the snapshot, and nowhere else. |
| Reports.SubmissionGroupsCover | pages/api/telegram.js:97-115 | Every record of the snapshot is shown under its user and day. |
| Reports.SubmissionGroupsAsWritten | pages/api/telegram.js:97-115 | On the handler's plain objects the listing fails exactly when some record's user, or its day, is named like an inherited key. Otherwise it is the corrected grouping. |
| Reports.SubmissionGroupsAsWrittenFails | pages/api/telegram.js:97-101 | A record of a user named like an inherited key makes the listing fail, although the grouping has a place for it. |
| Reports.SubmissionGroupsAsWrittenFailsOnDay | pages/api/telegram.js:109-115 | A record whose day is named like an inherited key, such as a date beginning with `toString`, makes the listing fail too, although the grouping has a place for it. |
| Bot.MenuChoice | pages/api/telegram.js:78-316 | Without conversation state, only a reporter's "New Send" creates state, and it starts at USERNAME. The menus never insert or patch records. |
| Bot.AdminTotalInfo | pages/api/telegram.js:161-230 | The administrator's "Total Info" is one report, the Total Info of the store. It lists each user key that occurs exactly once. Each counter is that user's count of the status. The grand totals are the store-wide counts of each status, and they are also the sums of the listed users' counters. An empty store gets "no data". |
| Bot.ReporterTotalAmount | pages/api/telegram.js:261-277 | A reporter's "Total Amount" is one reply to their chat. It carries the approved total of the records filed under the sender's identity, and it opens no conversation step. |
| Bot.ReporterAllSubmit | pages/api/telegram.js:279-313 | A reporter's "All Submit" answers "no submissions" exactly when no record is filed under the sender's identity. Otherwise it sends the date picker over that identity's days, newest first. |
| Bot.AdminAllSubmissions | pages/api/telegram.js:84-158 | The administrator's "All Submissions" is one listing. It is the store grouped by user and day, with each record's buttons attached and input order kept in each bucket. Every record of the store appears in it under its user and day. An empty store gets "no submissions". |
| Bot.UsernameStep | pages/api/telegram.js:320-352 | The USERNAME step never ends the conversation. It only moves to AMOUNT with a normalized handle. |
| Bot.AmountStep | pages/api/telegram.js:355-413 | The conversation ends exactly when the text is all ASCII digits, and then exactly one record is inserted. Otherwise the step and sender stay. |
| Bot.Step | pages/api/telegram.js:66-413 | `/start` keeps the state. State is created only by a reporter's "New Send". State ends only at AMOUNT on digits, and exactly then one record is inserted. Messages never patch. |
| Bot.HandleMessage | pages/api/telegram.js:78-413 | A message changes only its own chat's entry of the state map. |
| Bot.HandleMessageKeepsInv | pages/api/telegram.js:244 | Every message keeps the administrator's chat out of the state map and every stored sender normalized. |
| Bot.UsernameStepOutcomes | pages/api/telegram.js:320-351 | The three USERNAME outcomes: missing own handle, invalid handle (both stay at USERNAME), and a valid handle that moves to AMOUNT. |
| Bot.AmountStepOutcomes | pages/api/telegram.js:355-411 | Non-digits keep AMOUNT and the sender. Digits insert one pending record with the sender, the parsed amount, the date id and the reporter's identity. The administrator is offered accept then cancel for it. |
| Bot.SubmissionConversation | pages/api/telegram.js:243-411 | "New Send", a valid handle, then an amount file exactly one record and leave the chat without state. |
| Bot.DatePickerLayout | pages/api/telegram.js:295-305 | Button j of row i shows day 2i+j and carries `view_date:` followed by that day. |
| Bot.HandleCallback | pages/api/telegram.js:449-554 | Callbacks never insert. Only a status payload patches, once, with the status its action name selects. |
| Bot.PaidBranchIsDead | pages/api/telegram.js:537-554 | Every payload starting with `paid:` is handled by the status branch, so the later `paid:` branch never runs. |
| Bot.ButtonPressUpdatesRecord | pages/api/telegram.js:449-491 | Pressing a record's button patches that record's date id to a status one lifecycle step on, and edits the pressed message. It also sends the matching notice to a target that reads back as the record's chat. |
| Bot.PrefixOnlyActionBlanksStatus | pages/api/telegram.js:449-489 | A status payload with any other action name patches a blank status and sends no notice text. |
| Bot.PrefixOnlyExample | pages/api/telegram.js:449-469 | `acceptX:<id>:<chat>` is taken as a status payload that blanks the row. |
| Bot.DateButtonShowsDay | pages/api/telegram.js:499-534 | A date button shows the presser's records of that day, or "no data" when there are none. The total is the approved total of that day. |

## Left out

- Network I/O is not modelled: the calls to the messaging gateway and to the
  record store, their answers and failures, and the HTTP response. Each call is an
  `Effect` value. The store's answer is the `snapshot` parameter.
- The non-POST request that answers "Bot is running" is not modelled.
- Message wording, HTML markup, emoji icons and reply-keyboard layouts are not
  modelled. Each reply is a `Reply` constructor carrying the data it shows.
  The `Status:` text rewrite of the dead `paid:` branch is not modelled.
- The clock is not modelled: `Records.DateIdOf` takes the ISO-8601 text of `new Date()` as input.
- Numbers.ParseInt: reads only an optional '-' and decimal digits. `Number()` also
  accepts surrounding white space, hex and exponents, and reads "" as 0; those
  forms never occur in payloads the bot builds.
- Records.Record: `amount` is a natural number, which rules out JavaScript number
  precision above 2^53 and store cells that are not numbers (the `|| 0` and NaN cases).
- Records.Record: a missing store cell is the empty string. `i.date.slice` on a
  row without a date throws (line 112), and `i.date?.slice` yields `undefined` (line 293);
  neither path is modelled.
- Reports.SubmissionGroups: the order in which `for...in` lists users and days
  (integer-like keys first) is not modelled; the groups are maps.
- Reports.TotalInfo: the same holds for the order of the listed users. `users`
  keeps first-seen order, and the contracts promise no order.
- Bot.MenuChoice: answers "All Submissions" and "Total Info" with the corrected
  reports (`Reports.SubmissionGroups`, `Reports.TotalInfo`). The handler's
  behaviour for users named like inherited object members is not modelled in
  the handler. The listing that throws and the user who goes missing are
  modelled separately by `Reports.SubmissionGroupsAsWritten` and
  `Reports.TotalInfoAsWritten` (see "## Findings").
- Reports.TotalInfoAsWritten: a user key `__proto__` is not modelled. It makes the
  handler count on the shared object prototype and enumerate that counter as a
  user.
- Text.LexLess: compares code points where JavaScript compares UTF-16 code units.
  The two orders agree on the ASCII digits that date ids consist of.
- Concurrency is not modelled: requests that interleave at `await` points, and
  `userState` being lost when the serverless process restarts.
- Failures caught by the catch-all handler (lines 559-562) are not modelled in
  the handler. The one the "All Submissions" finding exhibits appears only as
  the `None` result of `Reports.SubmissionGroupsAsWritten`.
- Reports.SubmissionGroupsAsWritten: does not model the messages sent before the
  listing fails. When a day key fails, everything for the users listed before
  it (their headings, date headings and record cards) and that user's own
  heading have already gone out. `None` stands for
  either failure.
- The record store's PATCH by date id is not modelled: the model says which key
  and status are written, not which rows share that key. Two submissions in the
  same second share one.
- An update that carries both a message and a callback is not modelled.

## Findings

| source | as written | input that shows it | evidently intended | confidence | as-written member | corrected member |
|---|---|---|---|---|---|---|
| pages/api/telegram.js:173-206 | The per-user counters live on a plain object, and `!userStats[user]` is false for inherited names such as `toString`. No counters are created, and that user is never listed. | One accepted record whose `telegram_user` is `toString` | Every user who occurs is listed with their own counts, and those counts sum to the grand totals | medium; not executed | Reports.TotalInfoAsWritten, Reports.TotalInfoAsWrittenLosesUser | Reports.TotalInfo, Reports.GrandTotalIsSumOfUsers |
| pages/api/telegram.js:97-115 | `byUser`, and each user's `byDate`, is a plain object. For a user or a day named like an inherited key, `push` is called on a value without `push`. A user key throws before any message is sent. A day key throws after that user's heading was sent. | One record whose `telegram_user` is `constructor`, or one whose `date` begins with `toString` | Those records are listed under their own headings like anyone else's | medium; not executed | Reports.SubmissionGroupsAsWritten, Reports.SubmissionGroupsAsWrittenFails, Reports.SubmissionGroupsAsWrittenFailsOnDay | Reports.SubmissionGroups, Reports.SubmissionGroupsCover |
