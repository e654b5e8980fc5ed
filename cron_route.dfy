/**
 * `GET /api/cron`: the scheduled check. It admits only requests whose
 * `authorization` header contains the configured secret, validates the date
 * like the calendar route, and notifies through the bot directly (no queue)
 * when the day is bookable, and on every failure after validation.
 *
 * The upstream request is `fetch`; `JSON.stringify(day, null, 2)` is the
 * parameter `stringify`, and the Shanghai-time rendering of the clock in the
 * error notice is the parameter `clock`.
 */
module CronRoute {
  import opened Wrappers
  import opened Util
  import opened DateParams
  import opened Responses

  /** What the upstream request yields. */
  datatype CronFetch =
    | Thrown(message: string)                          // the request or the JSON parse threw
    | HttpFailure(status: nat, text: string)           // `!response.ok`
    | Payload(calendar: map<string, CalendarDay>)      // `data.calendar`

  // ---------------------------------------------------------------------------
  // Authorization

  /** `String.prototype.includes`: `needle` occurs somewhere in `hay`. */
  predicate Includes(hay: string, needle: string)
    ensures needle <= hay ==> Includes(hay, needle)
    ensures Includes(hay, needle) ==> |needle| <= |hay|
    decreases |hay|
  {
    needle <= hay || (hay != [] && Includes(hay[1..], needle))
  }

  /** `needle` sits in `hay` starting at position `i`. */
  predicate OccursAt(hay: string, needle: string, i: int)
  {
    0 <= i <= |hay| - |needle| && hay[i..i + |needle|] == needle
  }

  /** `includes` finds `needle` exactly when it sits at some position of `hay`. */
  lemma {:induction false} IncludesIffOccurs(hay: string, needle: string)
    ensures Includes(hay, needle) <==> exists i :: OccursAt(hay, needle, i)
    decreases |hay|
  {
    if needle <= hay {
      assert OccursAt(hay, needle, 0);
    }
    if hay != [] {
      IncludesIffOccurs(hay[1..], needle);
      if Includes(hay[1..], needle) {
        var i :| OccursAt(hay[1..], needle, i);
        assert hay[i + 1..i + 1 + |needle|] == hay[1..][i..i + |needle|];
        assert OccursAt(hay, needle, i + 1);
      }
      if exists i :: OccursAt(hay, needle, i) {
        var i :| OccursAt(hay, needle, i);
        if i > 0 {
          assert hay[1..][i - 1..i - 1 + |needle|] == hay[i..i + |needle|];
          assert OccursAt(hay[1..], needle, i - 1);
        } else {
          assert needle <= hay;
        }
      }
    } else if exists i :: OccursAt(hay, needle, i) {
      var i :| OccursAt(hay, needle, i);
      assert needle == [];
    }
  }

  /** `process.env.CRON_SECRET_KEY || ''`. */
  function SecretOrEmpty(secret: Option<string>): (s: string)
    ensures s == "" <==> secret.None? || secret.value == ""
    ensures secret.Some? ==> s == secret.value
  {
    if secret.None? then "" else secret.value
  }

  /** `authHeader?.includes(secret)`: a header is present and contains the secret. */
  predicate Authorized(authHeader: Option<string>, secret: Option<string>)
    ensures Authorized(authHeader, secret) ==> authHeader.Some? && |SecretOrEmpty(secret)| <= |authHeader.value|
  {
    authHeader.Some? && Includes(authHeader.value, SecretOrEmpty(secret))
  }

  /** A header is authorized exactly when the secret occurs in it; "Bearer " is never checked. */
  lemma AuthorizedMeansSecretOccurs(authHeader: Option<string>, secret: Option<string>)
    ensures Authorized(authHeader, secret) <==>
              authHeader.Some? && exists i :: OccursAt(authHeader.value, SecretOrEmpty(secret), i)
  {
    if authHeader.Some? {
      IncludesIffOccurs(authHeader.value, SecretOrEmpty(secret));
    }
  }

  /** With the secret unset or empty, every request that carries a header is authorized. */
  lemma AnyHeaderAcceptedWithoutSecret(header: string, secret: Option<string>)
    requires secret.None? || secret == Some("")
    ensures Authorized(Some(header), secret)
  {
    assert SecretOrEmpty(secret) <= header;
  }

  /** A request without the header is never authorized, whatever the secret. */
  lemma MissingHeaderRefused(secret: Option<string>)
    ensures !Authorized(None, secret)
  {
  }

  // ---------------------------------------------------------------------------
  // The handler

  const AvailableReply: string := "🎉🎊 快买! ✨"
  const UnavailableReply: string := "😔 暂时不可以买 ❌"

  /** The `message` field of a successful answer. */
  function ReplyMessage(canApply: bool): (m: string)
    ensures m == AvailableReply <==> canApply
    ensures m == UnavailableReply <==> !canApply
  {
    if canApply then AvailableReply else UnavailableReply
  }

  /** The notice sent when the day can be booked. */
  function AvailableNotice(date: string, dayJson: string): (m: string)
    ensures |m| == |AvailableHead| + |date| + |AvailableMiddle| + |dayJson| + |AvailableTail|
    ensures m[|AvailableHead|..|AvailableHead| + |date|] == date
    ensures m[|m| - |AvailableTail| - |dayJson|..|m| - |AvailableTail|] == dayJson
  {
    AvailableHead + date + AvailableMiddle + dayJson + AvailableTail
  }

  const AvailableHead: string := "🎉 可以购买啦！\n\n日期: "
  const AvailableMiddle: string := "\n\n详细信息:\n"
  const AvailableTail: string := "\n\n🎊 快去买票吧！✨"

  /** The notice sent on a caught error. */
  function ErrorNotice(details: string, clock: string): (m: string)
    ensures |m| == |ErrorHead| + |details| + |ErrorMiddle| + |clock|
    ensures m[|ErrorHead|..|ErrorHead| + |details|] == details
    ensures m[|m| - |clock|..] == clock
  {
    ErrorHead + details + ErrorMiddle + clock
  }

  const ErrorHead: string := "❌ 任务执行出错\n\n错误信息: "
  const ErrorMiddle: string := "\n\n时间: "

  /** The message of the error thrown for a non-OK upstream response. */
  function HttpFailureMessage(status: nat, text: string): (m: string)
    ensures |text| < |m|
    ensures m[|m| - |text|..] == text
  {
    "API请求失败: " + DecimalString(status) + " " + text
  }

  /** The caught-error path: one error notice and a 500 answer. */
  function CronFailure(details: string, clock: string): (h: Handled)
    ensures h.response.status == 500 && h.notification == Some(ErrorNotice(details, clock))
    ensures h.response.body.FailureBody? && h.response.body.details == details
  {
    Handled(Response(500, FailureBody(FetchFailure, details)), Some(ErrorNotice(details, clock)))
  }

  function CronGet(authHeader: Option<string>, secret: Option<string>, dateParam: Option<string>,
                   fetch: (string, int) -> CronFetch, stringify: CalendarDay -> string,
                   clock: string): (h: Handled)
    ensures h.response.status == 401 <==> !Authorized(authHeader, secret)
    ensures h.response.status == 400 <==> Authorized(authHeader, secret) && ValidateDate(dateParam).Err?
    ensures h.response.status in {200, 400, 401, 500}
    ensures h.response.status == 400 || h.response.status == 401 ==> h.notification.None?
    ensures h.response.status == 500 ==> h.notification.Some?
  {
    if !Authorized(authHeader, secret) then Handled(Response(401, ErrorBody("Unauthorized")), None)
    else
      match ValidateDate(dateParam)
      case Err(e) => Refused(e)
      case Ok(t) => CronAnswer(t, fetch(t.year, t.month), stringify, clock)
  }

  /** The part of the handler after validation, given what the upstream returned. */
  function CronAnswer(t: Target, f: CronFetch, stringify: CalendarDay -> string, clock: string): (h: Handled)
    ensures h.response.status == 200 || h.response.status == 500
    ensures h.response.status == 200 <==> f.Payload? && t.date in f.calendar
    ensures h.response.status == 500 ==> h.notification.Some?
    ensures h.response.status == 200 ==> (h.notification.Some? <==> CanApply(f.calendar[t.date]))
  {
    match f
    case Thrown(m) => CronFailure(m, clock)
    case HttpFailure(status, text) => CronFailure(HttpFailureMessage(status, text), clock)
    case Payload(calendar) =>
      if t.date !in calendar then CronFailure(MissingDayError(t.date), clock)
      else
        var day := calendar[t.date];
        var ok := CanApply(day);
        Handled(Response(200, CalendarBody(day, ok, ReplyMessage(ok))),
                if ok then Some(AvailableNotice(t.date, stringify(day))) else None)
  }

  /** The answer is 401, with nothing sent, exactly when the request is not authorized. */
  lemma CronUnauthorizedIff(authHeader: Option<string>, secret: Option<string>, dateParam: Option<string>,
                            fetch: (string, int) -> CronFetch, stringify: CalendarDay -> string, clock: string)
    ensures var h := CronGet(authHeader, secret, dateParam, fetch, stringify, clock);
            && (h.response.status == 401 <==> !Authorized(authHeader, secret))
            && (h.response.status == 401 ==> h == Handled(Response(401, ErrorBody("Unauthorized")), None))
  {
  }

  /** An authorized request with a refused date is answered with 400 and its reason, nothing fetched or sent. */
  lemma CronRefusesBadDate(authHeader: Option<string>, secret: Option<string>, dateParam: Option<string>,
                           fetch: (string, int) -> CronFetch, stringify: CalendarDay -> string, clock: string)
    requires Authorized(authHeader, secret)
    requires DateVerdict(DateOrDefault(dateParam)).Err?
    ensures var h := CronGet(authHeader, secret, dateParam, fetch, stringify, clock);
            && h.response.status == 400 && h.notification.None?
            && h.response.body == ErrorBody(if IsDateShaped(DateOrDefault(dateParam)) then MonthError else DateFormatError)
  {
    ValidateDateCharacterized(dateParam);
  }

  /** An authorized request with an accepted date is answered from the upstream's reply for its year and month. */
  lemma CronGetValidated(authHeader: Option<string>, secret: Option<string>, dateParam: Option<string>,
                         fetch: (string, int) -> CronFetch, stringify: CalendarDay -> string, clock: string)
    requires Authorized(authHeader, secret)
    requires DateVerdict(DateOrDefault(dateParam)).Ok?
    ensures var t := DateVerdict(DateOrDefault(dateParam)).value;
            CronGet(authHeader, secret, dateParam, fetch, stringify, clock) == CronAnswer(t, fetch(t.year, t.month), stringify, clock)
  {
    ValidateDateCharacterized(dateParam);
  }

  /**
   * On the success path the upstream is asked for the year text and month
   * number of the date, the answer's `canApply` is the booking predicate, and
   * the notice (with the day's JSON) is sent exactly when the day is bookable.
   */
  lemma CronSuccessNotifiesOnlyWhenBookable(authHeader: Option<string>, secret: Option<string>,
                                            dateParam: Option<string>, fetch: (string, int) -> CronFetch,
                                            stringify: CalendarDay -> string, clock: string)
    requires Authorized(authHeader, secret)
    requires DateVerdict(DateOrDefault(dateParam)).Ok?
    requires var t := DateVerdict(DateOrDefault(dateParam)).value;
             fetch(t.year, t.month).Payload? && t.date in fetch(t.year, t.month).calendar
    ensures var t := DateVerdict(DateOrDefault(dateParam)).value;
            var day := fetch(t.year, t.month).calendar[t.date];
            var h := CronGet(authHeader, secret, dateParam, fetch, stringify, clock);
            && h.response == Response(200, CalendarBody(day, CanApply(day), ReplyMessage(CanApply(day))))
            && h.notification == (if CanApply(day) then Some(AvailableNotice(t.date, stringify(day))) else None)
  {
    CronGetValidated(authHeader, secret, dateParam, fetch, stringify, clock);
    var t := DateVerdict(DateOrDefault(dateParam)).value;
    CronAnswerBookable(t, fetch(t.year, t.month), stringify, clock);
  }

  lemma CronAnswerBookable(t: Target, f: CronFetch, stringify: CalendarDay -> string, clock: string)
    requires f.Payload? && t.date in f.calendar
    ensures var day := f.calendar[t.date];
            var h := CronAnswer(t, f, stringify, clock);
            && h.response == Response(200, CalendarBody(day, CanApply(day), ReplyMessage(CanApply(day))))
            && h.notification == (if CanApply(day) then Some(AvailableNotice(t.date, stringify(day))) else None)
  {
  }

  /**
   * Every failure after validation (a thrown request, a non-OK response, a
   * calendar without the date) sends exactly one error notice carrying its
   * details and is answered with 500.
   */
  lemma CronFailureNotifiesOnce(authHeader: Option<string>, secret: Option<string>, dateParam: Option<string>,
                                fetch: (string, int) -> CronFetch, stringify: CalendarDay -> string, clock: string)
    requires Authorized(authHeader, secret)
    requires DateVerdict(DateOrDefault(dateParam)).Ok?
    requires var t := DateVerdict(DateOrDefault(dateParam)).value;
             !fetch(t.year, t.month).Payload? || t.date !in fetch(t.year, t.month).calendar
    ensures var t := DateVerdict(DateOrDefault(dateParam)).value;
            var h := CronGet(authHeader, secret, dateParam, fetch, stringify, clock);
            var details := match fetch(t.year, t.month)
                           case Thrown(m) => m
                           case HttpFailure(status, text) => HttpFailureMessage(status, text)
                           case Payload(_) => MissingDayError(t.date);
            h == Handled(Response(500, FailureBody(FetchFailure, details)), Some(ErrorNotice(details, clock)))
  {
    CronGetValidated(authHeader, secret, dateParam, fetch, stringify, clock);
  }

  /** The status code in an upstream failure message reads back as the status. */
  lemma HttpFailureMessageCarriesStatus(status: nat, text: string)
    ensures var m := HttpFailureMessage(status, text);
            var prefix := "API请求失败: ";
            prefix <= m && ParseInt(m[|prefix|..]) == Some(status)
  {
    var prefix := "API请求失败: ";
    var digits := DecimalString(status);
    var m := HttpFailureMessage(status, text);
    assert m[|prefix|..] == digits + (" " + text);
    LeadingDigitsAppend(digits, " " + text);
    DigitsValueOfDecimalString(status);
  }

  lemma {:induction false} LeadingDigitsAppend(ds: string, rest: string)
    requires AllDigits(ds) && (rest == [] || !IsDigit(rest[0]))
    ensures LeadingDigits(ds + rest) == ds
    decreases |ds|
  {
    if ds == [] {
      assert ds + rest == rest;
    } else {
      assert (ds + rest)[1..] == ds[1..] + rest;
      LeadingDigitsAppend(ds[1..], rest);
      assert [ds[0]] + ds[1..] == ds;
    }
  }
}
