/** The crawl as `main()` performs it: nested loops over the grid, a
    `while` loop paging through each probe's results, and a loop over each
    page that updates the visited set, the counter and the written rows in
    place. Each method is proved to leave the state CrawlModel describes. */
module Crawler {
  import opened Places
  import opened Schedule
  import opened Grid
  import opened CrawlModel

  /** The crawl session: the two services, the result maximum, and the
      mutable state `visited_placeid_set`, `result_counter`, `page_token`
      and the rows written to the output. */
  class PlacesCrawler {
    const search: Search
    ghost const rank: Rank
    const fetch: Fetch
    const maxResults: int

    var visited: set<string>
    var resultCounter: nat
    var pageToken: Option<Token>
    var rows: seq<seq<string>>
    /** The search requests issued so far. */
    ghost var log: seq<Request>

    ghost predicate Valid()
      reads this
    {
      Services(search, rank, fetch)
    }

    /** The state as a CrawlModel value. */
    ghost function Current(): State
      reads this
    {
      State(visited, resultCounter, pageToken, rows, log)
    }

    constructor (search: Search, ghost rank: Rank, fetch: Fetch, maxResults: int)
      requires Services(search, rank, fetch)
      ensures Valid() && Current() == Start
      ensures this.search == search && this.rank == rank && this.fetch == fetch
      ensures this.maxResults == maxResults
    {
      this.search := search;
      this.rank := rank;
      this.fetch := fetch;
      this.maxResults := maxResults;
      visited := {};
      resultCounter := 0;
      pageToken := None;
      rows := [];
      log := [];
    }

    /** The loop over one page's results: skip closed places, skip places
        already visited, otherwise mark the place visited, count it, fetch
        its details and write its row. */
    method ProcessResults(results: seq<Summary>)
      requires Valid()
      modifies this
      ensures Current() == ProcessPage(fetch, old(Current()), results)
    {
      for k := 0 to |results|
        invariant Current() == ProcessPage(fetch, old(Current()), results[..k])
      {
        assert results[..k + 1][..k] == results[..k];
        var place := results[k];
        if place.businessStatus != Operational {
          continue;
        }
        var placeId := place.placeId;
        if placeId in visited {
          continue;
        }
        visited := visited + {placeId};
        resultCounter := resultCounter + 1;
        var details := fetch(placeId);
        var fields := [placeId, OrNotAvailable(details.name), OrNotAvailable(details.formattedAddress),
                       OrNotAvailable(details.phoneNumber), OrNotAvailable(details.website)];
        var openingFields := OpeningFields(details.openingHours);
        rows := rows + [fields + openingFields];
      }
      assert results[..|results|] == results;
    }

    /** The paging loop of one probe: while the counter is at most the
        maximum, request a page with the current token, keep the returned
        token, process the results, and stop when no token came back. */
    method SearchProbe(probe: Offset)
      requires Valid()
      modifies this
      ensures Current() == ProbeLoop(search, rank, fetch, maxResults, probe, old(Current()))
    {
      ghost var target := ProbeLoop(search, rank, fetch, maxResults, probe, Current());
      while resultCounter <= maxResults
        invariant ProbeLoop(search, rank, fetch, maxResults, probe, Current()) == target
        decreases rank(probe, pageToken)
      {
        var places := search(probe, pageToken);
        log := log + [Request(probe, pageToken, resultCounter)];
        pageToken := places.nextPageToken;
        ProcessResults(places.results);
        if pageToken.None? {
          assert Current() == target;
          break;
        }
      }
    }

    /** The inner `for lngDiff in range(lo, hi)` loop: one probe per
        longitude offset, at latitude offset `latDiff`. */
    method SweepRow(latDiff: int, lo: int, hi: int)
      requires Valid() && lo <= hi
      modifies this
      ensures Current() == RunProbes(search, rank, fetch, maxResults, Row(latDiff, Range(lo, hi)), old(Current()))
    {
      ghost var start := Current();
      for lngDiff := lo to hi
        invariant Current() == RunProbes(search, rank, fetch, maxResults, Row(latDiff, Range(lo, lngDiff)), start)
      {
        RunRowRangeStep(search, rank, fetch, maxResults, latDiff, lo, lngDiff, start);
        SearchProbe(Offset(latDiff, lngDiff));
      }
    }

    /** The outer `for latDiff in range(lo, hi)` loop, each iteration
        sweeping the row of longitude offsets `range(lo, hi)`. */
    method SweepGrid(lo: int, hi: int)
      requires Valid() && lo <= hi
      modifies this
      ensures Current() == RunRows(search, rank, fetch, maxResults, Range(lo, hi), Range(lo, hi), old(Current()))
    {
      ghost var start := Current();
      ghost var lngs := Range(lo, hi);
      for latDiff := lo to hi
        invariant Current() == RunRows(search, rank, fetch, maxResults, Range(lo, latDiff), lngs, start)
      {
        RunRowsRangeStep(search, rank, fetch, maxResults, lo, latDiff, lngs, start);
        SweepRow(latDiff, lo, hi);
      }
    }

    /** The two nested `range(-hopCount, hopCount)` loops, latitude
        outermost: one probe loop per grid offset, in grid order. */
    method Run(hopCount: nat)
      requires Valid()
      modifies this
      ensures Current() == RunProbes(search, rank, fetch, maxResults, GridOffsets(hopCount), old(Current()))
    {
      ghost var start := Current();
      var lo := -(hopCount as int);
      SweepGrid(lo, hopCount);
      RunRowsGrid(search, rank, fetch, maxResults, hopCount, lo, start);
    }
  }

  /** `main()` after configuration: write the header, then crawl the grid
      of half-width `hopCount` (`HopCount` in `main()`) from a fresh
      session. The output is the header followed by one row per unique
      operational place, each as wide as the header, no place id twice. */
  method CrawlPlaces(search: Search, ghost rank: Rank, fetch: Fetch, maxResults: int, hopCount: nat)
    returns (output: seq<seq<string>>)
    requires Services(search, rank, fetch)
    ensures output == [Header] + Crawl(search, rank, fetch, maxResults, hopCount).rows
    ensures forall i :: 0 <= i < |output| ==> |output[i]| == |Header|
    ensures forall i, j :: 1 <= i < j < |output| ==> output[i][0] != output[j][0]
  {
    var session := new PlacesCrawler(search, rank, fetch, maxResults);
    session.Run(hopCount);
    output := [Header] + session.rows;
    CrawlNoDuplicateRows(search, rank, fetch, maxResults, hopCount);
    WithHeader(session.rows);
  }

  /** Writing the header first keeps every line as wide as the header and
      the place ids of the lines after it distinct. */
  lemma WithHeader(rows: seq<seq<string>>)
    requires forall i :: 0 <= i < |rows| ==> |rows[i]| == RowWidth
    requires forall i, j :: 0 <= i < j < |rows| ==> rows[i][0] != rows[j][0]
    ensures var output := [Header] + rows;
      (forall i :: 0 <= i < |output| ==> |output[i]| == |Header|) &&
      (forall i, j :: 1 <= i < j < |output| ==> output[i][0] != output[j][0])
  {
    var output := [Header] + rows;
    assert forall i :: 1 <= i < |output| ==> output[i] == rows[i - 1];
  }
}
