# Nintendo Museum calendar watcher — notification gate and request checks

This project models the decision logic of a small service that polls the
Nintendo Museum ticket calendar and tells a Telegram chat when tickets can be
bought. Its centre is the `MessageQueue` in `src/app/send-message.ts`. That
queue decides, for each candidate message text, whether it goes out. It
combines two policies:

- **content de-duplication**: a map from text to the time it was recorded,
  whose entries expire lazily after 30 minutes;
- **global rate limiting**: one `lastSentTime` shared by all texts, with at
  least 5000 ms between two admitted texts.

Around the queue the model covers:

- the booking predicate `canApply` (`src/app/util.ts`);
- the date-parameter handling shared by both routes: the default, the
  `^\d{4}-\d{2}-\d{2}$` check, `split('-')`, `parseInt` and the 1..12 month
  check;
- the answer and notification decisions of `GET /api/calendar` and
  `GET /api/cron`, including the cron route's authorization-header check.

Files and modules:

- `wrappers.dfy` (`Wrappers`): `Option` and `Result`.
- `util.dfy` (`Util`): the `CalendarDay` record with optional fields, and `CanApply`.
- `send_message.dfy` (`SendMessage`):
  - the value model of the queue (`QueueState`, `Sweep`, `AddStep`, `Swept`, `Cleared`);
  - the class `MessageQueue`, whose methods are proved against that model;
  - `SendTelegramMessage`, which posts to an abstract `Outbox`;
  - lemmas about single calls and about whole call sequences (`Run`, `Admissions`).
- `date_params.dfy` (`DateParams`): the anchored pattern matcher, `Split`,
  `ParseInt`, `DecimalString` and `ValidateDate`. `ValidateDate` is proved
  equal to `DateVerdict`, a definition read directly off the characters.
- `responses.dfy` (`Responses`): response bodies and the shared 400 answers.
- `calendar_route.dfy` (`CalendarRoute`) and `cron_route.dfy` (`CronRoute`):
  the two handlers as total functions. The upstream request is a function
  parameter `fetch(year, month)`.

The clock (`Date.now()`) is an explicit `now: int` argument. Environment
variables are `Option<string>` parameters. The outbound Telegram POST is
`Outbox.Post`, which records the text and returns Telegram's answer, itself a
parameter.

Two points of the code are easy to misread:

- `lastSentTime` starts at `0`, and `clear()` resets it to `0`. It is never
  "never sent". So a fresh or cleared queue refuses every text as rate limited
  while the clock reads below 5000 ms. `FreshQueueRateLimitsEarlyTexts` and
  `DefaultScenario` state this.
- The cron route does not use the queue. It calls the bot directly, so its
  notices are neither de-duplicated nor rate limited.

## Model

| member | source | states |
|---|---|---|
| `SendMessage.MessageQueue.constructor` | src/app/send-message.ts:8-13 | A new queue has an empty map, `lastSentTime = 0` and the given expiration and rate limit (defaults 1 800 000 ms and 5000 ms). |
| `SendMessage.MessageQueue.CanSend` | src/app/send-message.ts:16-23 | Returns true iff `now - lastSentTime >= rateLimitMs`. When true, `lastSentTime` becomes `now`. The map is unchanged. |
| `SendMessage.MessageQueue.CleanExpiredMessages` | src/app/send-message.ts:26-33 | The entry-by-entry deletion loop leaves exactly `Sweep(old map, now)`. `lastSentTime` is unchanged. |
| `SendMessage.Sweep` | src/app/send-message.ts:28-31 | A key survives iff it was present and `now - timestamp < expirationTime`. Survivors keep their timestamps. |
| `SendMessage.MessageQueue.Add` | src/app/send-message.ts:36-54 | The result and the new state are exactly `AddStep` of the old state: sweep, then duplicate check, then rate check, then record. |
| `SendMessage.MessageQueue.Has` | src/app/send-message.ts:57-60 | Sweeps, then reports membership. Only the sweep changes state, and `lastSentTime` stays. |
| `SendMessage.MessageQueue.Clear` | src/app/send-message.ts:63-66 | Empties the map and resets `lastSentTime` to 0. |
| `SendMessage.AddStep` | src/app/send-message.ts:36-54 | One `add`, as values. The text counts as new iff it is absent after the sweep. It is admitted iff it is new and the rate check on the old `lastSentTime` passes. Afterwards it is in the map iff it was a duplicate or was admitted. `lastSentTime` moves to `now` only on admission, and the settings never change. |
| `SendMessage.SweepRemovesExactlyExpired` | src/app/send-message.ts:28-31 | A recorded key survives a sweep iff it is younger than the expiration time. |
| `SendMessage.SweepIdempotent` | src/app/send-message.ts:26-33 | Sweeping twice at the same time equals sweeping once. |
| `SendMessage.LaterSweepSubsumesEarlier` | src/app/send-message.ts:26-33 | A sweep at `t1`, then one at a later `t2`, equals one sweep at `t2`. |
| `SendMessage.DuplicateLeavesRateLimiter` | src/app/send-message.ts:41-45 | A text still present after the sweep gets `{canSend:false, isNewMessage:false}`. Only the sweep changes state, so the rate slot is not consumed. |
| `SendMessage.NewMessageAdmission` | src/app/send-message.ts:47-53 | A new text is admitted iff `now - lastSentTime >= rateLimitMs`. Only then is `message ↦ now` recorded and `lastSentTime` set to `now`. Otherwise the swept state is kept. |
| `SendMessage.RateLimitedNotRecorded` | src/app/send-message.ts:47-60 | After a rate-limited `add`, the text is absent, so a `has` at that time is false. `lastSentTime` is unchanged. |
| `SendMessage.RateLimitedRetryAdmitted` | src/app/send-message.ts:41-53 | A rate-limited text is not later refused as a duplicate. It is admitted once the rate limit allows it. |
| `SendMessage.AdmittedTimestampIsLastSent` | src/app/send-message.ts:18-50 | After an admitting `add`, the text's stored timestamp equals `lastSentTime`, and both equal `now`. |
| `SendMessage.ExpiredTextReadmitted` | src/app/send-message.ts:28-51 | An expired text is offered afresh. It is admitted when the rate limit allows. |
| `SendMessage.ClearIsReset` | src/app/send-message.ts:63-66 | `clear` is idempotent. It yields the state of a freshly constructed queue with the same settings. |
| `SendMessage.FreshQueueRateLimitsEarlyTexts` | src/app/send-message.ts:8-23 | Because `lastSentTime` starts at 0, a default queue refuses every text as rate limited while `now < 5000`. |
| `SendMessage.AdmissionsSpaced` | src/app/send-message.ts:16-23 | Over any calls without `clear`: the first admission comes at least `rateLimitMs` after the initial `lastSentTime`; each later one comes at least `rateLimitMs` after the one before; `lastSentTime` ends at the last admission. |
| `SendMessage.SpacedAfterSpreadOut` | src/app/send-message.ts:16-23 | In readings spaced by `gap`, entries `i <= j` lie at least `(j - i) * gap` apart. |
| `SendMessage.AdmissionsSpreadOut` | src/app/send-message.ts:16-23 | Without `clear`, admissions `i <= j` lie at least `(j - i) * rateLimitMs` apart. |
| `SendMessage.RecordSurvives` | src/app/send-message.ts:26-54 | A recorded text keeps its entry and timestamp through any calls without `clear` whose clock stays within its expiration window. |
| `SendMessage.DuplicateSuppressedWithinWindow` | src/app/send-message.ts:36-54 | After a text is admitted at `t1`, offering it again at any `t2` with `t2 - t1 < expirationTime` returns "duplicate". This holds whatever calls come between, as long as there is no `clear` and their clock stays in the window. |
| `SendMessage.InitialStateSpaced` | src/app/send-message.ts:8-13 | A fresh queue satisfies the spacing invariant. |
| `SendMessage.ApplyKeepsSpaced` | src/app/send-message.ts:36-66 | With `rateLimitMs >= 0`, `add`, `has` and `clear` each keep the invariant. The invariant: every record is no later than `lastSentTime`, and any two records are at least `rateLimitMs` apart. |
| `SendMessage.RunKeepsSpaced` | src/app/send-message.ts:36-66 | From a spaced state with `rateLimitMs >= 0`, the spacing invariant holds after any sequence of calls. |
| `SendMessage.DefaultScenario` | src/app/send-message.ts:8-54 | With defaults: "A"@0 rate limited, "A"@5000 admitted, "A"@6000 duplicate, "B"@6000 rate limited, "B"@10000 admitted, "A"@1805000 admitted again (expired). |
| `SendMessage.GateDecision` | src/app/send-message.ts:88-98 | With credentials present, the text is posted iff `isNewMessage && canSend`. A text already queued is reported as such. |
| `SendMessage.SendTelegramMessage` | src/app/send-message.ts:73-127 | A missing or empty bot token or chat id returns before the queue is touched. Otherwise the queue takes exactly one `AddStep`. The outbox gets the text once iff it was admitted; a failed POST does not undo the record. |
| `SendMessage.Outbox.Post` | src/app/send-message.ts:100-116 | One POST appends the text to what was posted and returns Telegram's answer. |
| `Util.CanApply` | src/app/util.ts:3-5 | A bookable day has both `sale_status` and `open_status` recorded. `CanApplyMeansOnSaleAndOpen` gives its full meaning. |
| `Util.CanApplyMeansOnSaleAndOpen` | src/app/util.ts:3-5 | `canApply` holds iff the sale status decodes to "on sale" (1) and the open status to "open" (1). |
| `Util.NoSaleStatusMeansNoBooking` | src/app/util.ts:4 | An absent `sale_status` never allows booking, whatever `open_status` is. |
| `Util.ClosedDayNotBookable` | src/app/util.ts:4 | `open_status == 2` (closed) never allows booking. |
| `Util.LotteryDayNotBookable` | src/app/util.ts:4 | `sale_status == 2` (lottery) never allows booking. |
| `Util.CanApplyIgnoresOtherFields` | src/app/util.ts:4 | Days that agree on `sale_status` and `open_status` agree on `canApply`. |
| `DateParams.DateOrDefault` | src/app/api/calendar/route.ts:11 | A present, non-empty parameter is used as is. An absent or empty one gives `2025-06-29`. The result is never empty. |
| `DateParams.FullMatch` | src/app/api/calendar/route.ts:15-16 | `dateRegex.test(date)` with `DatePattern`: an anchored match, atom by atom. `FullMatchAtoms` and `DatePatternMeansDateShaped` state its meaning. |
| `DateParams.ValidateDate` | src/app/api/calendar/route.ts:11-26 | An accepted date is the defaulted parameter, matches the pattern, and has a month in 1..12. |
| `DateParams.CheckMonth` | src/app/api/calendar/route.ts:21-26 | After the shape check: either the month error, or a target for the same date with a month in 1..12. |
| `DateParams.FullMatchAtoms` | src/app/api/calendar/route.ts:15-16 | An anchored pattern matches iff the lengths agree and each atom matches its character. |
| `DateParams.DatePatternMeansDateShaped` | src/app/api/calendar/route.ts:15-16 | `^\d{4}-\d{2}-\d{2}$` accepts exactly 4 ASCII digits, `-`, 2 digits, `-`, 2 digits, and nothing more. |
| `DateParams.Split` | src/app/api/calendar/route.ts:21 | `split('-')` yields one more part than there are separators in the string. |
| `DateParams.SplitJoin` | src/app/api/calendar/route.ts:21 | `split` loses nothing: joining the parts with the separator gives the string back, and no part contains the separator. |
| `DateParams.SplitDate` | src/app/api/calendar/route.ts:21 | A date-shaped string splits into year, month and day texts. |
| `DateParams.ParseInt` | src/app/api/calendar/route.ts:22-26 | `parseInt` gives NaN (`None`) iff the text is empty or does not start with a decimal digit. |
| `DateParams.ParseIntDecimalString` | src/app/api/calendar/route.ts:22 | `parseInt` reads back any decimal numeral as its number. |
| `DateParams.ParseTwoDigits` | src/app/api/calendar/route.ts:22 | Two digits parse to `10 * d0 + d1`, so a leading zero is dropped. |
| `DateParams.ValidateDateCharacterized` | src/app/api/calendar/route.ts:11-26 | Validation (default, pattern, split, parseInt, 1..12) equals the verdict read off the characters. Malformed means 400 "format". Well-formed with a month outside 1..12 means 400 "month". Otherwise the year is the first four characters and the month the value of the middle digits. |
| `DateParams.MissingDateDefaults` | src/app/api/calendar/route.ts:11 | An absent or empty date validates as 2025-06-29, year "2025", month 6. |
| `DateParams.DayDigitsNotChecked` | src/app/api/calendar/route.ts:15-26 | The day digits are never range-checked. Dates differing only in them are accepted or refused together. |
| `DateParams.DayNotRangeChecked` | src/app/api/calendar/route.ts:15-26 | `2025-02-31` is accepted as February 2025. |
| `DateParams.MonthZeroRefused` | src/app/api/calendar/route.ts:24-26 | Month `00` is refused with the month error. |
| `DateParams.MonthThirteenRefused` | src/app/api/calendar/route.ts:24-26 | Month `13` is refused with the month error. |
| `CalendarRoute.ResultMessage` | src/app/api/calendar/route.ts:74 | The message is '🎉🎊 快去买票! ✨' iff the day is bookable, otherwise '😔 暂时不可以买 ❌'. |
| `CalendarRoute.ForceSend` | src/app/api/calendar/route.ts:12 | An absent `forceSend` or any text other than exactly `true` (`1`, `True`, empty) does not force a notification. |
| `CalendarRoute.Failure` | src/app/api/calendar/route.ts:82-100 | The caught-error answer is 500, its `details` are the error message, and that same message is the notification. |
| `CalendarRoute.CalendarGet` | src/app/api/calendar/route.ts:7-102 | The status is 200, 400 or 500. It is 400 iff the date is refused, and a 400 notifies nothing. A 500 always notifies. |
| `CalendarRoute.CalendarAnswer` | src/app/api/calendar/route.ts:35-100 | After validation: 200 iff the request succeeded and the day is in the calendar, otherwise 500 with a notification. A 200 notifies iff `forceSend` is set or the day is bookable. |
| `CalendarRoute.CalendarRefusesBadDate` | src/app/api/calendar/route.ts:15-26 | A refused date gets 400 with the format or month error, and nothing is notified. |
| `CalendarRoute.CalendarGetValidated` | src/app/api/calendar/route.ts:21-36 | An accepted date is answered from the upstream reply for its year text and month number. |
| `CalendarRoute.CalendarSuccessNotifyRule` | src/app/api/calendar/route.ts:69-81 | On success the answer is 200 with the day, `canApply` and the matching message. That message is notified iff `canApply` holds or `forceSend` is exactly `"true"`. |
| `CalendarRoute.CalendarFailureAlwaysNotifies` | src/app/api/calendar/route.ts:60-100 | After validation, a failed request or a missing day gets 500 with the error details, and those details are always notified. |
| `CalendarRoute.NotifyThroughGate` | src/app/api/calendar/route.ts:77-79 | The new outbox and queue state are `GateEffect` of the old ones. With no notification, or with the bot token or chat id unset or empty, nothing changes. Otherwise the queue takes one `AddStep`, and the text is posted iff admitted. |
| `CalendarRoute.GateEffect` | src/app/send-message.ts:80-98 | What the gated send called at calendar/route.ts:78 and 98 does. Posts only append, and at most one text: the notification. When it is posted, `lastSentTime` is `now`. With no notification nothing changes, and the queue settings never change. |
| `CalendarRoute.HandleCalendarRequest` | src/app/api/calendar/route.ts:7-102 | The answer is `CalendarGet`'s response. Queue and outbox change exactly as `GateEffect` of its notification: untouched without a notification or without both credentials, otherwise one `AddStep` and a post iff admitted. |
| `CronRoute.Includes` | src/app/api/cron/route.ts:25 | A prefix is always included. An included needle is no longer than the text. |
| `CronRoute.Authorized` | src/app/api/cron/route.ts:20-25 | An authorized request has a header at least as long as the secret (empty when unset). |
| `CronRoute.SecretOrEmpty` | src/app/api/cron/route.ts:25 | `CRON_SECRET_KEY \|\| ''`: the secret is empty iff it is unset or empty, and otherwise it is the configured value. |
| `CronRoute.IncludesIffOccurs` | src/app/api/cron/route.ts:25 | `includes` is true iff the needle occurs at some position of the header. |
| `CronRoute.AuthorizedMeansSecretOccurs` | src/app/api/cron/route.ts:25-28 | A request is authorized iff a header is present and the secret occurs in it as a substring. The "Bearer " prefix is never checked. |
| `CronRoute.AnyHeaderAcceptedWithoutSecret` | src/app/api/cron/route.ts:25 | With `CRON_SECRET_KEY` unset or empty, any present header is accepted. |
| `CronRoute.MissingHeaderRefused` | src/app/api/cron/route.ts:25-28 | A request without an authorization header is never authorized. |
| `CronRoute.CronUnauthorizedIff` | src/app/api/cron/route.ts:20-28 | The answer is 401 "Unauthorized", with nothing sent, iff the request is not authorized. |
| `CronRoute.CronGet` | src/app/api/cron/route.ts:19-122 | The status is 200, 400, 401 or 500. It is 401 iff unauthorized, and 400 iff authorized with a refused date. 401 and 400 send nothing. A 500 always sends a notice. |
| `CronRoute.ReplyMessage` | src/app/api/cron/route.ts:109 | The message is '🎉🎊 快买! ✨' iff the day is bookable, otherwise '😔 暂时不可以买 ❌'. |
| `CronRoute.CronAnswer` | src/app/api/cron/route.ts:56-122 | After validation: 200 iff the reply is a payload holding the day, otherwise 500. A 500 always carries a notice. A 200 carries one iff the day is bookable. |
| `CronRoute.CronRefusesBadDate` | src/app/api/cron/route.ts:33-47 | An authorized request with a refused date gets 400 with the format or month error, and nothing is sent. |
| `CronRoute.CronGetValidated` | src/app/api/cron/route.ts:42-78 | An authorized request with an accepted date is answered from the upstream reply for its year and month. |
| `CronRoute.CronAnswerBookable` | src/app/api/cron/route.ts:98-110 | A reply holding the day gives 200 with `canApply` and the matching message. The notice, carrying the date and the day's JSON, is sent iff the day is bookable. |
| `CronRoute.CronSuccessNotifiesOnlyWhenBookable` | src/app/api/cron/route.ts:98-110 | On the success path the response's `canApply` is the predicate, and a notice is sent iff it holds. |
| `CronRoute.CronFailureNotifiesOnce` | src/app/api/cron/route.ts:111-121 | Every failure after validation sends exactly one error notice carrying its details and answers 500. Failures: a thrown request, a non-OK response ("API请求失败: status text"), or a missing day. |
| `CronRoute.HttpFailureMessageCarriesStatus` | src/app/api/cron/route.ts:82-86 | The non-OK error message carries the HTTP status as a decimal numeral that reads back as the status. |
| `CronRoute.HttpFailureMessage` | src/app/api/cron/route.ts:85 | The non-OK error message ends with the response text. `HttpFailureMessageCarriesStatus` gives the status part. |
| `CronRoute.AvailableNotice` | src/app/api/cron/route.ts:101-102 | The notice carries the date right after its heading, and the day's JSON right before its closing line. |
| `CronRoute.ErrorNotice` | src/app/api/cron/route.ts:115 | The error notice carries the error details right after its heading, and ends with the clock reading. |
| `CronRoute.CronFailure` | src/app/api/cron/route.ts:111-121 | The caught-error answer is 500 with the error message as `details`. The one notice sent is `ErrorNotice` of those details. |
| `Responses.Refused` | src/app/api/calendar/route.ts:15-26 | A refused date gets 400 with an `{ error }` body (format or month text), and nothing is notified. The cron route answers the same at cron/route.ts:36-47. |
| `Responses.MissingDayError` | src/app/api/calendar/route.ts:63-65 | The error for a missing day carries the date right after its heading. Same text at cron/route.ts:92-94. |

## Left out

- Network I/O is out: the `axios.get` / `fetch` to the ticket site, and the Telegram POST and `bot.sendMessage`. The upstream reply is the function parameter `fetch`. Telegram's acceptance is the `accepted` argument of `Outbox.Post`.
- Response construction is out (`NextResponse.json`, headers, `JSON.stringify` of bodies). Responses are the `Response` datatype. `JSON.stringify(day, null, 2)` in the cron notice is the function parameter `stringify`.
- All `console.log` / `console.error` output is out: it is logging only.
- The clock and locale are out. `Date.now()` is the argument `now`. The Asia/Shanghai `toLocaleString` text in the cron error notice is the argument `clock`.
- Environment reads are out. `TELEGRAM_BOT_TOKEN`, `TELEGRAM_CHAT_ID` and `CRON_SECRET_KEY` are `Option<string>` parameters, and an empty value counts as unset where the source uses `!value` or `|| ''`.
- The module-level singleton `messageQueue` is out. The model uses one explicitly constructed `MessageQueue` passed to the sender.
- `SendMessage.MessageQueue.Add`: the source reads `Date.now()` up to three times in one `add`. The model uses one `now` for the sweep, the duplicate check and the rate check, as if the call took no time.
- `SendMessage.MessageQueue.constructor`: `expirationTime` and `rateLimitMs` are `const` fields. The source never reassigns them after construction.
- JavaScript numbers are unbounded integers here. Timestamps and settings are whole milliseconds, so no rounding arises.
- `DateParams.ParseInt`: leading blanks and a sign, which `parseInt` would accept, are not modelled. They cannot reach it after the pattern check.
- Thrown values that are not `Error` instances (the `'Unknown error'` / `'未知错误'` fallback) are out. Every failure modelled carries an error message.
- The shape of the upstream payload (`data.calendar`) is reduced to a map from date to `CalendarDay`. A malformed payload that makes the handler throw is the `Thrown` / `FetchFailed` case.
- Async ordering and concurrency between handler invocations are out. Each call runs to completion.
- `src/app/page.tsx` and `src/app/layout.tsx` are out: they are UI rendering only.
- `src/types/calendar.ts` has no behaviour. Its `CalendarDay` is the `Util.CalendarDay` datatype.
