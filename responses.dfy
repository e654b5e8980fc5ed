/**
 * The JSON responses the route handlers return, and the notification text
 * each request hands to the Telegram sender (if any).
 */
module Responses {
  import opened Wrappers
  import opened Util
  import opened DateParams

  /** The JSON body of a response. */
  datatype Body =
    | ErrorBody(error: string)                                    // { error }
    | FailureBody(error: string, details: string)                 // { error, details }
    | CalendarBody(data: CalendarDay, canApply: bool, message: string)

  datatype Response = Response(status: int, body: Body)

  /** What a request answers, and the text it notifies (`None`: nothing sent). */
  datatype Handled = Handled(response: Response, notification: Option<string>)

  const DateFormatError: string := "日期格式无效，请使用 YYYY-MM-DD 格式"
  const MonthError: string := "月份无效，必须是 1-12 之间的数字"
  const FetchFailure: string := "Failed to fetch calendar data"

  /** The 400 answer to a refused date parameter; nothing is fetched or sent. */
  function Refused(e: DateError): (h: Handled)
    ensures h.response.status == 400 && h.notification.None?
    ensures h.response.body.ErrorBody?
  {
    match e
    case InvalidDateFormat => Handled(Response(400, ErrorBody(DateFormatError)), None)
    case InvalidMonth => Handled(Response(400, ErrorBody(MonthError)), None)
  }

  /** The error thrown when the fetched calendar has no entry for the date. */
  function MissingDayError(date: string): (m: string)
    ensures |m| == |MissingDayHead| + |date| + |MissingDayTail|
    ensures m[|MissingDayHead|..|MissingDayHead| + |date|] == date
  {
    MissingDayHead + date + MissingDayTail
  }

  const MissingDayHead: string := "未找到日期 "
  const MissingDayTail: string := " 的数据"
}
