/**
 * `GET /api/calendar`: validates the date, looks the day up in the fetched
 * calendar, answers whether tickets can be bought, and notifies through the
 * gated `sendTelegramMessage` when they can (or when `forceSend=true`), and
 * always on failure.
 *
 * The upstream request is the parameter `fetch`, keyed by the year text and
 * month number the handler puts in its query string.
 */
module CalendarRoute {
  import opened Wrappers
  import opened Util
  import opened DateParams
  import opened Responses
  import SendMessage

  /** What the upstream request yields: a thrown error's message, or the calendar by date. */
  datatype CalendarFetch = FetchFailed(message: string) | Fetched(calendar: map<string, CalendarDay>)

  const AvailableMessage: string := "🎉🎊 快去买票! ✨"
  const UnavailableMessage: string := "😔 暂时不可以买 ❌"

  /** The `message` field of a successful answer. */
  function ResultMessage(canApply: bool): (m: string)
    ensures m == AvailableMessage <==> canApply
    ensures m == UnavailableMessage <==> !canApply
  {
    if canApply then AvailableMessage else UnavailableMessage
  }

  /** `searchParams.get('forceSend') === 'true'`. */
  predicate ForceSend(param: Option<string>)
    ensures param.None? || param.value != "true" ==> !ForceSend(param)
  {
    param == Some("true")
  }

  /** The caught-error path: the details are notified and answered with 500. */
  function Failure(details: string): (h: Handled)
    ensures h.response.status == 500 && h.notification == Some(details)
    ensures h.response.body.FailureBody? && h.response.body.details == details
  {
    Handled(Response(500, FailureBody(FetchFailure, details)), Some(details))
  }

  function CalendarGet(dateParam: Option<string>, forceSendParam: Option<string>,
                       fetch: (string, int) -> CalendarFetch): (h: Handled)
    ensures h.response.status == 400 <==> ValidateDate(dateParam).Err?
    ensures h.response.status in {200, 400, 500}
    ensures h.response.status == 400 ==> h.notification.None?
    ensures h.response.status == 500 ==> h.notification.Some?
  {
    match ValidateDate(dateParam)
    case Err(e) => Refused(e)
    case Ok(t) => CalendarAnswer(t, ForceSend(forceSendParam), fetch(t.year, t.month))
  }

  /** The part of the handler after validation, given what the upstream returned. */
  function CalendarAnswer(t: Target, forceSend: bool, f: CalendarFetch): (h: Handled)
    ensures h.response.status == 200 <==> f.Fetched? && t.date in f.calendar
    ensures h.response.status == 200 || h.response.status == 500
    ensures h.response.status == 500 ==> h.notification.Some?
    ensures h.response.status == 200 ==> (h.notification.Some? <==> forceSend || CanApply(f.calendar[t.date]))
  {
    match f
    case FetchFailed(m) => Failure(m)
    case Fetched(calendar) =>
      if t.date !in calendar then Failure(MissingDayError(t.date))
      else
        var day := calendar[t.date];
        var ok := CanApply(day);
        var message := ResultMessage(ok);
        Handled(Response(200, CalendarBody(day, ok, message)),
                if ok || forceSend then Some(message) else None)
  }

  /** A refused date is answered with 400 and its reason, before anything is fetched or sent. */
  lemma CalendarRefusesBadDate(dateParam: Option<string>, forceSendParam: Option<string>,
                               fetch: (string, int) -> CalendarFetch)
    requires DateVerdict(DateOrDefault(dateParam)).Err?
    ensures var h := CalendarGet(dateParam, forceSendParam, fetch);
            && h.response.status == 400 && h.notification.None?
            && h.response.body == ErrorBody(if IsDateShaped(DateOrDefault(dateParam)) then MonthError else DateFormatError)
  {
    ValidateDateCharacterized(dateParam);
  }

  /** An accepted date is answered from the upstream's reply for its year and month. */
  lemma CalendarGetValidated(dateParam: Option<string>, forceSendParam: Option<string>,
                             fetch: (string, int) -> CalendarFetch)
    requires DateVerdict(DateOrDefault(dateParam)).Ok?
    ensures var t := DateVerdict(DateOrDefault(dateParam)).value;
            CalendarGet(dateParam, forceSendParam, fetch) == CalendarAnswer(t, ForceSend(forceSendParam), fetch(t.year, t.month))
  {
    ValidateDateCharacterized(dateParam);
  }

  /**
   * On the success path the upstream is asked for the year text and month
   * number of the date, the answer carries `canApply` and the matching
   * message, and that message is notified exactly when the day is bookable or
   * `forceSend=true`.
   */
  lemma CalendarSuccessNotifyRule(dateParam: Option<string>, forceSendParam: Option<string>,
                                  fetch: (string, int) -> CalendarFetch)
    requires DateVerdict(DateOrDefault(dateParam)).Ok?
    requires var t := DateVerdict(DateOrDefault(dateParam)).value;
             fetch(t.year, t.month).Fetched? && t.date in fetch(t.year, t.month).calendar
    ensures var t := DateVerdict(DateOrDefault(dateParam)).value;
            var day := fetch(t.year, t.month).calendar[t.date];
            var h := CalendarGet(dateParam, forceSendParam, fetch);
            && h.response == Response(200, CalendarBody(day, CanApply(day), ResultMessage(CanApply(day))))
            && (h.notification.Some? <==> CanApply(day) || forceSendParam == Some("true"))
            && (h.notification.Some? ==> h.notification.value == ResultMessage(CanApply(day)))
  {
    CalendarGetValidated(dateParam, forceSendParam, fetch);
  }

  /**
   * After validation, a failed request or a calendar without the date is
   * answered with 500 and its error details are always notified.
   */
  lemma CalendarFailureAlwaysNotifies(dateParam: Option<string>, forceSendParam: Option<string>,
                                      fetch: (string, int) -> CalendarFetch)
    requires DateVerdict(DateOrDefault(dateParam)).Ok?
    requires var t := DateVerdict(DateOrDefault(dateParam)).value;
             fetch(t.year, t.month).FetchFailed? || t.date !in fetch(t.year, t.month).calendar
    ensures var t := DateVerdict(DateOrDefault(dateParam)).value;
            var h := CalendarGet(dateParam, forceSendParam, fetch);
            var details := if fetch(t.year, t.month).FetchFailed? then fetch(t.year, t.month).message
                           else MissingDayError(t.date);
            h == Handled(Response(500, FailureBody(FetchFailure, details)), Some(details))
  {
    CalendarGetValidated(dateParam, forceSendParam, fetch);
  }

  /**
   * What handing notification `n` to the gated sender does to the queue state
   * and to the texts posted so far: nothing without a notification or without
   * both credentials, otherwise one `add` and a post iff it was admitted.
   */
  function GateEffect(s: SendMessage.QueueState, posted: seq<string>, botToken: Option<string>,
                      chatId: Option<string>, now: int, n: Option<string>): (r: (seq<string>, SendMessage.QueueState))
    ensures |posted| <= |r.0| <= |posted| + 1 && r.0[..|posted|] == posted
    ensures |r.0| == |posted| + 1 ==> n.Some? && r.0[|posted|] == n.value && r.1.lastSentTime == now
    ensures n.None? ==> r == (posted, s)
    ensures r.1.expirationTime == s.expirationTime && r.1.rateLimitMs == s.rateLimitMs
  {
    if n.None? || !(SendMessage.IsSet(botToken) && SendMessage.IsSet(chatId)) then (posted, s)
    else
      var step := SendMessage.AddStep(s, n.value, now);
      (posted + (if step.result.canSend then [n.value] else []), step.next)
  }

  /** Hands a notification, if there is one, to the gated sender. */
  method NotifyThroughGate(queue: SendMessage.MessageQueue, outbox: SendMessage.Outbox,
                           botToken: Option<string>, chatId: Option<string>, now: int, accepted: bool,
                           n: Option<string>)
    modifies queue, outbox
    ensures (outbox.posted, queue.State()) == GateEffect(old(queue.State()), old(outbox.posted), botToken, chatId, now, n)
  {
    if n.Some? {
      var outcome := SendMessage.SendTelegramMessage(queue, outbox, botToken, chatId, n.value, now, accepted);
      if SendMessage.IsSet(botToken) && SendMessage.IsSet(chatId) {
        var step := SendMessage.AddStep(old(queue.State()), n.value, now);
        assert outcome == SendMessage.Delivered || outcome == SendMessage.DeliveryFailed <==> step.result.canSend;
        assert queue.State() == step.next;
        assert outbox.posted == old(outbox.posted) + (if step.result.canSend then [n.value] else []);
      } else {
        assert queue.State() == old(queue.State());
        assert outbox.posted == old(outbox.posted);
      }
    }
  }

  /**
   * The handler with its notification sent through the gate: the answer is
   * that of `CalendarGet`, and the queue sees the notification text (and only
   * it) when there is one.
   */
  method HandleCalendarRequest(queue: SendMessage.MessageQueue, outbox: SendMessage.Outbox,
                               botToken: Option<string>, chatId: Option<string>, now: int, accepted: bool,
                               dateParam: Option<string>, forceSendParam: Option<string>,
                               fetch: (string, int) -> CalendarFetch)
    returns (response: Response)
    modifies queue, outbox
    ensures var h := CalendarGet(dateParam, forceSendParam, fetch);
            && response == h.response
            && (outbox.posted, queue.State()) ==
               GateEffect(old(queue.State()), old(outbox.posted), botToken, chatId, now, h.notification)
  {
    var handled := CalendarGet(dateParam, forceSendParam, fetch);
    NotifyThroughGate(queue, outbox, botToken, chatId, now, accepted, handled.notification);
    response := handled.response;
  }
}
