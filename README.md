# Google Places grid crawler, modelled in Dafny

`main.py` of google-places-api-search crawls the Google Places service for
one place type around one location:

- It lays a square grid of probe points around the geocoded origin. The
  grid has offsets `(latDiff, lngDiff)` in `[-hop_count, hop_count)²`,
  visited in row-major order, latitude outermost.
- For every probe it pages through the distance-ranked search results with
  the `next_page_token`, for as long as `result_counter <= max`.
- It skips businesses that are not `OPERATIONAL`, and places whose id is
  already in `visited_placeid_set`.
- For every new place it fetches the details and writes one 12-field TSV
  row. The row holds the id, four descriptive fields, each defaulting to
  `"n/a"`, and seven opening-hours slots. Each slot is formatted as
  `"HH:MM - HH:MM"`, as `"HH:MM - "` for a period with no close time, or is
  `"n/a"`.

The model has five modules:

- `Places` holds the data the service returns (summaries, pages, detail
  records, opening-hours periods), as datatypes.
- `Schedule` builds a row: the field defaults, the time formatter
  `":".join(textwrap.wrap(t, 2))`, and the seven weekday slots. The
  seven-iteration hours loop is the method `OpeningFields`.
- `Grid` holds the probe offsets, with their count, order, membership and
  distinctness.
- `CrawlModel` is the crawl as a state machine over values. The state
  holds the visited set, the result counter, the page token, the rows
  written and a log of search requests. The module also holds the lemmas
  about it: deduplication, the operational filter, the soft cap,
  pagination, and a concrete five-place run with a maximum of 3.
- `Crawler` is the crawl as `main()` performs it. The class
  `PlacesCrawler` has the mutable state as fields. Its methods are the
  nested grid loops, the `while` paging loop and the loop over one page,
  and each is proved to produce the state `CrawlModel` computes.
  `CrawlPlaces` writes the header followed by the rows.

The two services are parameters: `search` maps a probe and a token to a
page, and `fetch` maps a place id to a detail record. The proved
properties hold for every pair of services that meets the predicate
`CrawlModel.Services`, which states what the crawl needs of them:

- Pagination ends: each next-page token lowers a rank.
- Every detail record can be read without the Python code raising.

Three behaviours of the code are easy to miss, and the model follows the
code in each:

- **Hours are positional.** The hours slots take `periods[i]` for
  weekday `i`. A single period therefore always fills Monday
  (`Schedule.SinglePeriodWeek`); it does not fill the slot of the day it
  belongs to.
- **A missing name crashes.** `place['name']` is printed before the
  `or "n/a"` default applies, so a detail record without a name raises.
  It does not become `"n/a"`: `Places.DetailOk` requires the name.
- **A failed detail fetch is not skipped.** Nothing catches the error, so
  the run ends. The model requires the fetch to succeed.

## Model

| member | source | states |
|---|---|---|
| Grid.Range | main.py:204-205 | `range(lo, hi)` has `max(hi - lo, 0)` elements and element `i` is `lo + i` |
| Grid.Row | main.py:205 | one pass of the inner loop yields one offset per longitude, in the same order, all at the given latitude |
| Grid.ProductLength | main.py:204-205 | the nested loops visit `|lats| * |lngs|` probes |
| Grid.ProductAt | main.py:204-205 | row-major order: probe `i * |lngs| + j` pairs latitude `i` with longitude `j` |
| Grid.ProductMembers | main.py:204-205 | an offset is visited exactly when its latitude and its longitude are both in their ranges |
| Grid.ProductNoDuplicates | main.py:204-205 | distinct latitudes and distinct longitudes give distinct probes |
| Grid.RangeSnoc | main.py:204 | `range(lo, hi + 1)` is `range(lo, hi)` followed by `hi`, so a `for` loop extends its prefix by one |
| Grid.RowSnoc | main.py:205 | one more inner-loop iteration appends exactly the next offset |
| Grid.GridLength | main.py:204-205 | a grid of half-width `h` has `(2h)²` probes |
| Grid.CrawlerGridLength | main.py:217 | with `hop_count = 5` there are 100 probes, the total the progress message reports |
| Grid.GridOrder | main.py:204-205 | probe `i * 2h + j` is `(-h + i, -h + j)`: latitude outermost, both ascending |
| Grid.GridMembers | main.py:204-205 | an offset is a probe exactly when both coordinates lie in `[-h, h)` |
| Grid.GridNoDuplicates | main.py:204-205 | no probe is visited twice |
| Schedule.Wrap2 | main.py:306 | `textwrap.wrap(t, 2)` on a digit string splits it into chunks that concatenate back to `t`, all of length 2 but possibly the last, `ceil(|t|/2)` of them |
| Schedule.OrNotAvailable | main.py:268-271 | `v or "n/a"` is the value when it is a non-empty string and `"n/a"` when it is missing or empty, never empty |
| Schedule.BuildRow | main.py:266-328 | a row has 12 fields: the place id, the four defaulted descriptive fields in header order, then the seven weekly-hours slots |
| Schedule.OpeningFields | main.py:278-323 | the hours loop yields exactly the seven weekly slots: period `i`'s text, or `"n/a"` past the end of the list, and all `"n/a"` when there are no hours |
| Schedule.FormatTimeUnfold | main.py:306 | a time of more than two digits prints as its first two digits, a colon and the formatted rest |
| Schedule.FormatTimeShort | main.py:306 | a time of at most two digits prints unchanged |
| Schedule.FormatTimeFourDigits | main.py:305-306 | "HHMM" prints as "HH:MM" |
| Schedule.FormatTimeRoundTrip | main.py:306 | formatting only inserts colons: removing them gives the original time back |
| Schedule.PeriodTextNotAvailable | main.py:313-318 | a present period never prints as `"n/a"`, so a slot's `"n/a"` always means a missing period |
| Schedule.WeeklyHoursShape | main.py:321-323 | there are always seven slots, and falsy hours give seven `"n/a"` |
| Schedule.WeeklyHoursSlot | main.py:295-318 | with hours present, slot `i` is `"n/a"` if and only if the list has no period `i`, and otherwise is that period's text |
| Schedule.WeeklyHoursIgnoresExtraPeriods | main.py:295-297 | periods past the seventh never affect the row |
| Schedule.SinglePeriodWeek | main.py:295-318 | a single period fills Monday and leaves the six other days `"n/a"` |
| Schedule.PeriodTextExample | main.py:305-313 | open "0900" and close "1700" print as "09:00 - 17:00" |
| Schedule.WeeklyHoursExample | main.py:293-318 | one period 0900 to 1700 gives `["09:00 - 17:00", "n/a" ×6]` |
| Schedule.PeriodTextNoClose | main.py:307-308 | open "0000" with no close prints as "00:00 - " |
| Schedule.RowMatchesHeader | main.py:266-272 | every row is as wide as the header; each of the four descriptive fields is never empty, keeps the service's value when that is non-empty, and is `"n/a"` exactly when the value is missing, empty or itself `"n/a"` |
| CrawlModel.ProcessPage | main.py:233-248 | processing a page's results never changes the page token nor issues a search request |
| CrawlModel.RunProbesAppend | main.py:204-205 | visiting two probe sequences one after the other is visiting their concatenation |
| CrawlModel.RunRowStep | main.py:205 | one more inner-loop iteration is one more paging loop at the next longitude |
| CrawlModel.RunRowRangeStep | main.py:205 | iteration `lngDiff` of `range(lo, …)` runs the paging loop of probe `(latDiff, lngDiff)` after the earlier ones |
| CrawlModel.RunRowsRangeStep | main.py:204 | iteration `latDiff` of the outer loop runs that latitude's whole row after the earlier rows |
| CrawlModel.RunRowsProduct | main.py:204-205 | running the rows one after the other is running the row-major product of probes |
| CrawlModel.RunRowsGrid | main.py:204-205 | the two nested loops over `range(-h, h)` run every grid probe in grid order |
| CrawlModel.RowIdsAppend | main.py:331 | writing a row adds its id, and only its id, to the ids written |
| CrawlModel.FreshRowDedup | main.py:239-247 | writing the row of an unvisited place keeps ids distinct and keeps the counter, the visited set and the rows in step |
| CrawlModel.ProcessSummaryDedup | main.py:235-248 | one result keeps the dedup invariant, and the visited set, counter, rows and log only grow |
| CrawlModel.ProcessPageDedup | main.py:233-248 | a whole page keeps the dedup invariant and only grows the state |
| CrawlModel.ProbeLoopDedup | main.py:208-248 | a probe's paging loop keeps the dedup invariant and only grows the state |
| CrawlModel.RunProbesDedup | main.py:204-248 | any sequence of probes keeps the dedup invariant and only grows the state |
| CrawlModel.CrawlNoDuplicateRows | main.py:233-331 | over the whole crawl exactly one row is written per operational place id found on any page requested: no id twice, and the row ids are exactly the operational ids of the pages requested; every row is the 12-field row built from its id's detail record; the counter equals the number of rows and the size of the visited set |
| CrawlModel.PageBuilt | main.py:251-331 | processing a page keeps every written row equal to the row built from its id's detail record |
| CrawlModel.ProbeLoopTraced | main.py:208-248 | the paging loop keeps the visited set equal to the operational ids of all pages requested, and keeps every row built from its id's details |
| CrawlModel.RunProbesTraced | main.py:204-248 | any sequence of probes keeps the visited set equal to the operational ids of all pages requested, and keeps every row built from its id's details |
| CrawlModel.ClosedPlacesIgnored | main.py:235-237 | a non-operational result has no effect: a page gives the same state as its operational results alone |
| CrawlModel.PageVisits | main.py:233-246 | after a page the visited set is the old one plus exactly the ids of the page's operational results |
| CrawlModel.FreshPageCounted | main.py:246-247 | a page of `n` distinct, operational, unseen places adds exactly `n` to the counter and `n` rows |
| CrawlModel.PageCounterBound | main.py:233-247 | a page raises the counter by at least 0 and at most its number of results |
| CrawlModel.ProbeLoopGrows | main.py:208-247 | the paging loop never lowers the counter |
| CrawlModel.ProbeLoopCap | main.py:208 | the paging loop keeps the soft-cap invariant: every request is issued with the counter at most the maximum, and the counter exceeds the last request's counter by at most that page's size |
| CrawlModel.RunProbesCap | main.py:204-208 | any sequence of probes keeps the soft-cap invariant |
| CrawlModel.OverCapStops | main.py:208 | once the counter is past the maximum, the later probes issue no request and change nothing |
| CrawlModel.CrawlSoftCap | main.py:207-208 | over the whole crawl every request is issued with the counter at most the maximum, the counters at request time never decrease, and the final counter exceeds the maximum by at most the size of the last page fetched |
| CrawlModel.PaginatedRequest | main.py:226-230 | sending the current token and keeping the returned one preserves the pagination invariant |
| CrawlModel.ProbeLoopPaging | main.py:208-335 | the paging loop keeps the pagination invariant, leaves a token behind only when it stopped on the cap, and starts exactly one chain when entered below the cap with no token |
| CrawlModel.RunProbesPaging | main.py:204-335 | from the initial state, the probes started are a prefix of the probe sequence, and all of it unless the cap was exceeded |
| CrawlModel.CrawlPagination | main.py:226-230 | over the whole crawl the first request has no token, each later one carries the previous page's next token, a new probe always starts without a token, and the probes started are the grid in order, without repeats, and the whole grid unless the cap was exceeded |
| CrawlModel.FirstProbeExample | main.py:208-247 | with maximum 3, one page of five new operational places writes five rows and leaves the counter at 5 after one request |
| CrawlModel.SoftCapExample | main.py:204-248 | with maximum 3, half-width 1, and every probe returning the same five places, the crawl writes exactly five rows with one request in total |
| Crawler.PlacesCrawler.constructor | main.py:179-182 | the session starts with no token, counter 0, an empty visited set and no rows |
| Crawler.PlacesCrawler.ProcessResults | main.py:233-331 | the loop over results updates the fields to the state `ProcessPage` computes |
| Crawler.PlacesCrawler.SearchProbe | main.py:208-335 | the `while` paging loop updates the fields to the state `ProbeLoop` computes |
| Crawler.PlacesCrawler.SweepRow | main.py:205-335 | the inner `for` loop runs the paging loop of each probe of the row in turn |
| Crawler.PlacesCrawler.SweepGrid | main.py:204-335 | the outer `for` loop runs each latitude's row in turn |
| Crawler.PlacesCrawler.Run | main.py:204-205 | the nested loops over `range(-h, h)` leave the state of running every grid probe in order |
| Crawler.CrawlPlaces | main.py:189-331 | the output is the header followed by the crawl's rows; every line is as wide as the header and no place id appears on two lines |
| Crawler.WithHeader | main.py:189-202 | writing the header first keeps all lines 12 wide and the ids after it distinct |

## Left out

- Argument parsing, the geocode call and the probe coordinates are left out. The coordinates are computed in floating point from the origin and the step sizes (`main.py:168-176`, `216`). The model works on the integer grid offsets only.
- Network calls are parameters: the search service is `search` and the detail service is `fetch`. Both are total functions, so transport errors, quotas and retries are not modelled.
- Termination of pagination is an assumption about the service, the ghost `rank` in `CrawlModel.PaginationEnds`. The source has no bound of its own.
- The sleeps are left out (`main.py:214`, `243`, `250`). They pace the requests and affect nothing the model states.
- Progress printing is left out, and so is the unused `local_counter` (`main.py:206`, `248`).
- TSV quoting, file opening, flushing and closing are left out. `Crawler.CrawlPlaces` returns the rows, header first, so the CSV round trip is not modelled.
- Crash paths are preconditions, not modelled outcomes. `Places.DetailOk` and `Places.PeriodOk` require a name and an open time in every one of the first seven periods. Without them the Python code raises `KeyError` or `TypeError`.
- `Places.PeriodOk` also requires digit-only times. This is a restriction of the model, not a crash path: `main.py:306` and `310` format any string, and a time such as "9:00" becomes "9::00".
- `CrawlModel.DetailsOk` requires a readable detail record for every place id, including ids that are never fetched. The source only reads the records of the ids it fetches (`main.py:251-263`), so the assumption is stronger than the code needs.
- A `business_status` key missing from a summary would raise in the source. Here every summary carries a status.
- `Places.OpeningHours`: `NoHours` stands for every falsy `opening_hours` value. A truthy dictionary without `"periods"` raises in the source and is excluded by the type.
- Schedule.FormatTime: only digit strings are formatted. `textwrap.wrap`'s whitespace and hyphen splitting is not modelled.
- Crawler.CrawlPlaces: takes the half-width as a parameter. `main()` fixes it at 5 (`Grid.HopCount`); `Grid.CrawlerGridLength` gives the size of that grid.
