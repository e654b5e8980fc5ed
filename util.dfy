/**
 * The calendar entry returned by the ticket site for one day, and the
 * booking predicate over it (`canApply`).
 */
module Util {
  import opened Wrappers

  /** The colour-coded label shown on a calendar day. */
  datatype DayLabel = DayLabel(colorCode: int, message: string)

  /**
   * One day of the calendar. Every field is optional: the site may leave any
   * of them out, and `null` and absence are both `None` here.
   */
  datatype CalendarDay = CalendarDay(
    applyType: Option<int>,
    saleStatus: Option<int>,          // 1: on sale, 2: lottery
    openStatus: Option<int>,          // 1: open, 2: closed
    holiday: Option<string>,
    dayLabel: Option<DayLabel>,
    isTemporaryClosure: Option<bool>,
    temporaryClosureTime: Option<string>,
    isHolding: Option<bool>)

  /** Whether tickets for the day can be bought right now. */
  predicate CanApply(day: CalendarDay)
    ensures CanApply(day) ==> day.saleStatus.Some? && day.openStatus.Some?
  {
    day.saleStatus == Some(1) && day.openStatus == Some(1)
  }

  /** How the site describes the sale of a day, decoded from `sale_status`. */
  datatype Sale = OnSale | Lottery | OtherSale(code: int) | SaleUnknown

  /** How the site describes the opening of a day, decoded from `open_status`. */
  datatype Opening = Open | Closed | OtherOpening(code: int) | OpeningUnknown

  function SaleOf(day: CalendarDay): (s: Sale)
    ensures day.saleStatus.None? <==> s == SaleUnknown
  {
    match day.saleStatus
    case None => SaleUnknown
    case Some(code) => if code == 1 then OnSale else if code == 2 then Lottery else OtherSale(code)
  }

  function OpeningOf(day: CalendarDay): (o: Opening)
    ensures day.openStatus.None? <==> o == OpeningUnknown
  {
    match day.openStatus
    case None => OpeningUnknown
    case Some(code) => if code == 1 then Open else if code == 2 then Closed else OtherOpening(code)
  }

  /** A day is bookable exactly when it is on sale (not a lottery) and open. */
  lemma CanApplyMeansOnSaleAndOpen(day: CalendarDay)
    ensures CanApply(day) <==> SaleOf(day) == OnSale && OpeningOf(day) == Open
  {
  }

  /** An absent sale status never allows booking, whatever the opening says. */
  lemma NoSaleStatusMeansNoBooking(day: CalendarDay)
    requires day.saleStatus.None?
    ensures !CanApply(day)
  {
  }

  /** A closed day is never bookable. */
  lemma ClosedDayNotBookable(day: CalendarDay)
    requires OpeningOf(day) == Closed
    ensures !CanApply(day)
  {
  }

  /** A lottery day is never bookable. */
  lemma LotteryDayNotBookable(day: CalendarDay)
    requires SaleOf(day) == Lottery
    ensures !CanApply(day)
  {
  }

  /** Only the sale and opening statuses matter; every other field is ignored. */
  lemma CanApplyIgnoresOtherFields(a: CalendarDay, b: CalendarDay)
    requires a.saleStatus == b.saleStatus && a.openStatus == b.openStatus
    ensures CanApply(a) == CanApply(b)
  {
  }
}
