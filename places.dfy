/** The data the crawler receives from the places-lookup service and the
    data it emits. Everything here is a value; the service itself is an
    oracle passed as a function (see CrawlModel). */
module Places {

  datatype Option<+T> = None | Some(value: T)

  /** One cell of the probe grid, relative to the geocoded origin. */
  datatype Offset = Offset(latDiff: int, lngDiff: int)

  /** A continuation token for the next page of a search. */
  type Token = string

  /** One entry of a search page: the place id and its business status. */
  datatype Summary = Summary(placeId: string, businessStatus: string)

  /** One page of search results and the token for the page after it. */
  datatype Page = Page(results: seq<Summary>, nextPageToken: Option<Token>)

  /** An entry of `opening_hours["periods"]`: the `"time"` of its `"open"`
      and `"close"` parts, `None` when that part is absent. */
  datatype Period = Period(open: Option<string>, close: Option<string>)

  /** `opening_hours` of a detail record. `NoHours` stands for every falsy
      value (absent, `None`, an empty dictionary); `Hours` for a truthy one,
      with its `"periods"` list. */
  datatype OpeningHours = NoHours | Hours(periods: seq<Period>)

  /** The `"result"` of a detail fetch; `None` is a missing field. */
  datatype Detail = Detail(
    name: Option<string>,
    formattedAddress: Option<string>,
    phoneNumber: Option<string>,
    website: Option<string>,
    openingHours: OpeningHours)

  /** A digit-only time string such as "0900". */
  predicate IsDigits(t: string)
  {
    forall i :: 0 <= i < |t| ==> '0' <= t[i] <= '9'
  }

  /** A period the formatter reads without faulting: it has an open time,
      and every time it has is a digit string. */
  predicate PeriodOk(p: Period)
  {
    p.open.Some? && IsDigits(p.open.value) &&
    (p.close.Some? ==> IsDigits(p.close.value))
  }

  /** A detail record the row builder reads without faulting: the name is
      present (it is printed by key before any default applies) and the
      opening hours are well formed. */
  predicate DetailOk(d: Detail)
  {
    d.name.Some? && HoursOk(d.openingHours)
  }

  /** Only the first seven periods are ever read, so only they must be
      well formed. */
  predicate HoursOk(h: OpeningHours)
  {
    h.Hours? ==> forall i :: 0 <= i < |h.periods| && i < 7 ==> PeriodOk(h.periods[i])
  }
}
