/** The crawl as a state machine over values: for every probe offset, page
    through the search results, skip closed businesses and places already
    seen, and append one row per new place. The class in Crawler runs the
    same steps imperatively and is proved equal to these functions. */
module CrawlModel {
  import opened Places
  import opened Schedule
  import opened Grid

  const Operational := "OPERATIONAL"

  /** The search service: the page returned for a probe and a token. */
  type Search = (Offset, Option<Token>) -> Page
  /** A measure on probe/token pairs that every next-page token lowers. */
  type Rank = (Offset, Option<Token>) -> nat
  /** The detail service: the record returned for a place id. */
  type Fetch = string -> Detail

  /** One search request: the probe, the token sent with it, and the
      result counter at the moment it was issued. */
  datatype Request = Request(probe: Offset, token: Option<Token>, counter: nat)

  /** The crawl state: the visited ids, `result_counter`, `page_token`, the
      rows written so far, and the log of search requests. */
  datatype State = State(
    visited: set<string>,
    counter: nat,
    pageToken: Option<Token>,
    rows: seq<seq<string>>,
    log: seq<Request>)

  const Start := State({}, 0, None, [], [])

  /** Pagination always ends: the service eventually returns no token. */
  ghost predicate PaginationEnds(search: Search, rank: Rank)
  {
    forall o, t :: search(o, t).nextPageToken.Some? ==> rank(o, search(o, t).nextPageToken) < rank(o, t)
  }

  /** Every detail record the service returns is read without faulting. */
  ghost predicate DetailsOk(fetch: Fetch)
  {
    forall id :: DetailOk(fetch(id))
  }

  /** What the crawl assumes of the two services. */
  ghost predicate Services(search: Search, rank: Rank, fetch: Fetch)
  {
    PaginationEnds(search, rank) && DetailsOk(fetch)
  }

  /** The page a logged request received. */
  function PageOf(search: Search, r: Request): Page
  {
    search(r.probe, r.token)
  }

  function Last<T>(s: seq<T>): T
    requires s != []
  {
    s[|s| - 1]
  }

  // ----- The steps -----

  /** The body of the loop over one page's results. */
  function ProcessSummary(fetch: Fetch, st: State, s: Summary): State
    requires DetailsOk(fetch)
  {
    if s.businessStatus != Operational then st
    else if s.placeId in st.visited then st
    else st.(visited := st.visited + {s.placeId},
             counter := st.counter + 1,
             rows := st.rows + [BuildRow(s.placeId, fetch(s.placeId))])
  }

  /** The loop over one page's results, in order. */
  function ProcessPage(fetch: Fetch, st: State, results: seq<Summary>): (r: State)
    requires DetailsOk(fetch)
    ensures r.pageToken == st.pageToken && r.log == st.log
    decreases |results|
  {
    if results == [] then st
    else ProcessSummary(fetch, ProcessPage(fetch, st, results[..|results| - 1]), results[|results| - 1])
  }

  /** The `while result_counter <= max` loop for one probe: request a page
      with the current token, keep its next token, process its results,
      and stop when there is no next token. */
  function ProbeLoop(search: Search, rank: Rank, fetch: Fetch, maxResults: int, o: Offset, st: State): State
    requires Services(search, rank, fetch)
    decreases rank(o, st.pageToken)
  {
    if st.counter > maxResults then st
    else
      var page := search(o, st.pageToken);
      var requested := st.(pageToken := page.nextPageToken,
                           log := st.log + [Request(o, st.pageToken, st.counter)]);
      var processed := ProcessPage(fetch, requested, page.results);
      if page.nextPageToken.None? then processed
      else ProbeLoop(search, rank, fetch, maxResults, o, processed)
  }

  /** The probe loops over a sequence of offsets, in order. */
  function RunProbes(search: Search, rank: Rank, fetch: Fetch, maxResults: int,
                     probes: seq<Offset>, st: State): State
    requires Services(search, rank, fetch)
    decreases |probes|
  {
    if probes == [] then st
    else ProbeLoop(search, rank, fetch, maxResults, probes[|probes| - 1],
                   RunProbes(search, rank, fetch, maxResults, probes[..|probes| - 1], st))
  }

  /** Running one more probe after a sequence is one more probe loop. */
  lemma RunProbesSnoc(search: Search, rank: Rank, fetch: Fetch, maxResults: int,
                      probes: seq<Offset>, o: Offset, st: State)
    requires Services(search, rank, fetch)
    ensures RunProbes(search, rank, fetch, maxResults, probes + [o], st)
         == ProbeLoop(search, rank, fetch, maxResults, o,
                      RunProbes(search, rank, fetch, maxResults, probes, st))
  {
    assert (probes + [o])[..|probes|] == probes;
  }

  /** Running two sequences of probes one after the other. */
  lemma {:induction false} RunProbesAppend(search: Search, rank: Rank, fetch: Fetch, maxResults: int,
                                           first: seq<Offset>, second: seq<Offset>, st: State)
    requires Services(search, rank, fetch)
    ensures RunProbes(search, rank, fetch, maxResults, first + second, st)
         == RunProbes(search, rank, fetch, maxResults, second,
                      RunProbes(search, rank, fetch, maxResults, first, st))
    decreases |second|
  {
    if second == [] {
      assert first + second == first;
    } else {
      var prefix := second[..|second| - 1];
      RunProbesAppend(search, rank, fetch, maxResults, first, prefix, st);
      assert (first + second)[..|first + second| - 1] == first + prefix;
      assert (first + second)[|first + second| - 1] == second[|second| - 1];
    }
  }

  /** One more iteration of the inner grid loop is one more probe loop. */
  lemma RunRowStep(search: Search, rank: Rank, fetch: Fetch, maxResults: int,
                   lat: int, lngs: seq<int>, j: nat, st: State)
    requires Services(search, rank, fetch) && j < |lngs|
    ensures RunProbes(search, rank, fetch, maxResults, Row(lat, lngs[..j + 1]), st)
         == ProbeLoop(search, rank, fetch, maxResults, Offset(lat, lngs[j]),
                      RunProbes(search, rank, fetch, maxResults, Row(lat, lngs[..j]), st))
  {
    RowSnoc(lat, lngs, j);
    RunProbesSnoc(search, rank, fetch, maxResults, Row(lat, lngs[..j]), Offset(lat, lngs[j]), st);
  }

  /** One more iteration of `for lngDiff in range(lo, ...)`: the probe at
      longitude offset `hi`. */
  lemma RunRowRangeStep(search: Search, rank: Rank, fetch: Fetch, maxResults: int,
                        lat: int, lo: int, hi: int, st: State)
    requires Services(search, rank, fetch) && lo <= hi
    ensures RunProbes(search, rank, fetch, maxResults, Row(lat, Range(lo, hi + 1)), st)
         == ProbeLoop(search, rank, fetch, maxResults, Offset(lat, hi),
                      RunProbes(search, rank, fetch, maxResults, Row(lat, Range(lo, hi)), st))
  {
    var lngs := Range(lo, hi + 1);
    RangeSnoc(lo, hi);
    assert lngs[..hi - lo] == Range(lo, hi);
    RunRowStep(search, rank, fetch, maxResults, lat, lngs, hi - lo, st);
    assert lngs[..hi - lo + 1] == lngs;
  }

  /** The outer grid loop: the rows of the given latitudes, one after the
      other. */
  function RunRows(search: Search, rank: Rank, fetch: Fetch, maxResults: int,
                   lats: seq<int>, lngs: seq<int>, st: State): State
    requires Services(search, rank, fetch)
    decreases |lats|
  {
    if lats == [] then st
    else RunProbes(search, rank, fetch, maxResults, Row(lats[|lats| - 1], lngs),
                   RunRows(search, rank, fetch, maxResults, lats[..|lats| - 1], lngs, st))
  }

  /** One more iteration of `for latDiff in range(lo, ...)`: the row at
      latitude offset `hi`. */
  lemma RunRowsRangeStep(search: Search, rank: Rank, fetch: Fetch, maxResults: int,
                         lo: int, hi: int, lngs: seq<int>, st: State)
    requires Services(search, rank, fetch) && lo <= hi
    ensures RunRows(search, rank, fetch, maxResults, Range(lo, hi + 1), lngs, st)
         == RunProbes(search, rank, fetch, maxResults, Row(hi, lngs),
                      RunRows(search, rank, fetch, maxResults, Range(lo, hi), lngs, st))
  {
    var lats := Range(lo, hi + 1);
    RangeSnoc(lo, hi);
    assert lats[..|lats| - 1] == Range(lo, hi);
  }

  /** Running the rows one by one is running the whole row-major product. */
  lemma {:induction false} RunRowsProduct(search: Search, rank: Rank, fetch: Fetch, maxResults: int,
                                          lats: seq<int>, lngs: seq<int>, st: State)
    requires Services(search, rank, fetch)
    ensures RunRows(search, rank, fetch, maxResults, lats, lngs, st)
         == RunProbes(search, rank, fetch, maxResults, Product(lats, lngs), st)
    decreases |lats|
  {
    if lats != [] {
      var i := |lats| - 1;
      RunRowsProduct(search, rank, fetch, maxResults, lats[..i], lngs, st);
      RunProbesAppend(search, rank, fetch, maxResults, Product(lats[..i], lngs), Row(lats[i], lngs), st);
    }
  }

  /** The two nested loops over `range(lo, hopCount)` with `lo == -hopCount`
      run the whole grid. */
  lemma RunRowsGrid(search: Search, rank: Rank, fetch: Fetch, maxResults: int,
                    hopCount: int, lo: int, st: State)
    requires Services(search, rank, fetch) && lo == -hopCount
    ensures RunRows(search, rank, fetch, maxResults, Range(lo, hopCount), Range(lo, hopCount), st)
         == RunProbes(search, rank, fetch, maxResults, GridOffsets(hopCount), st)
  {
    RunRowsProduct(search, rank, fetch, maxResults, Range(lo, hopCount), Range(lo, hopCount), st);
    GridRange(hopCount, lo);
  }

  /** The whole crawl over the grid, from the initial state. */
  function Crawl(search: Search, rank: Rank, fetch: Fetch, maxResults: int, hopCount: int): State
    requires Services(search, rank, fetch)
  {
    RunProbes(search, rank, fetch, maxResults, GridOffsets(hopCount), Start)
  }

  // ----- Deduplication and counting -----

  /** The rows are well formed, their ids are pairwise distinct and are
      exactly the visited set, and the counter equals both sizes. */
  predicate Dedup(st: State)
  {
    (forall i :: 0 <= i < |st.rows| ==> |st.rows[i]| == RowWidth) &&
    st.counter == |st.rows| == |st.visited| &&
    st.visited == RowIds(st.rows) &&
    (forall i, j :: 0 <= i < j < |st.rows| ==> st.rows[i][0] != st.rows[j][0])
  }

  /** The place ids of the rows written. */
  function RowIds(rows: seq<seq<string>>): set<string>
  {
    set i | 0 <= i < |rows| && rows[i] != [] :: rows[i][0]
  }

  lemma RowIdsAppend(rows: seq<seq<string>>, row: seq<string>)
    requires row != []
    ensures RowIds(rows + [row]) == RowIds(rows) + {row[0]}
  {
    var all := rows + [row];
    forall id | id in RowIds(all) ensures id in RowIds(rows) + {row[0]} {
      var i :| 0 <= i < |all| && all[i] != [] && all[i][0] == id;
      if i < |rows| {
        assert rows[i] == all[i];
      }
    }
    forall id | id in RowIds(rows) ensures id in RowIds(all) {
      var i :| 0 <= i < |rows| && rows[i] != [] && rows[i][0] == id;
      assert all[i] == rows[i];
    }
    assert all[|rows|] == row;
  }

  /** `b` extends `a`: the visited set only grows, the counter never goes
      down, and rows and requests are only appended. */
  predicate Extends(a: State, b: State)
  {
    a.visited <= b.visited && a.counter <= b.counter && a.rows <= b.rows && a.log <= b.log
  }

  /** Writing the row of an unvisited place keeps the rows deduplicated. */
  lemma FreshRowDedup(st: State, id: string, row: seq<string>)
    requires Dedup(st) && id !in st.visited && |row| == RowWidth && row[0] == id
    ensures Dedup(st.(visited := st.visited + {id}, counter := st.counter + 1, rows := st.rows + [row]))
  {
    var rows := st.rows + [row];
    var visited := st.visited + {id};
    assert |visited| == |st.visited| + 1;
    RowIdsAppend(st.rows, row);
    assert forall i :: 0 <= i < |st.rows| ==> rows[i] == st.rows[i];
    assert forall i :: 0 <= i < |rows| ==> |rows[i]| == RowWidth;
    forall i, j | 0 <= i < j < |rows| ensures rows[i][0] != rows[j][0] {
      if j == |st.rows| {
        assert st.rows[i] != [];
      }
    }
  }

  lemma ProcessSummaryDedup(fetch: Fetch, st: State, s: Summary)
    requires DetailsOk(fetch) && Dedup(st)
    ensures Dedup(ProcessSummary(fetch, st, s))
    ensures Extends(st, ProcessSummary(fetch, st, s))
  {
    if s.businessStatus == Operational && s.placeId !in st.visited {
      FreshRowDedup(st, s.placeId, BuildRow(s.placeId, fetch(s.placeId)));
    }
  }

  lemma {:induction false} ProcessPageDedup(fetch: Fetch, st: State, results: seq<Summary>)
    requires DetailsOk(fetch) && Dedup(st)
    ensures Dedup(ProcessPage(fetch, st, results))
    ensures Extends(st, ProcessPage(fetch, st, results))
    decreases |results|
  {
    if results != [] {
      var prefix := results[..|results| - 1];
      ProcessPageDedup(fetch, st, prefix);
      ProcessSummaryDedup(fetch, ProcessPage(fetch, st, prefix), results[|results| - 1]);
    }
  }

  lemma {:induction false} ProbeLoopDedup(search: Search, rank: Rank, fetch: Fetch, maxResults: int,
                                          o: Offset, st: State)
    requires Services(search, rank, fetch) && Dedup(st)
    ensures Dedup(ProbeLoop(search, rank, fetch, maxResults, o, st))
    ensures Extends(st, ProbeLoop(search, rank, fetch, maxResults, o, st))
    decreases rank(o, st.pageToken)
  {
    if st.counter <= maxResults {
      var page := search(o, st.pageToken);
      var requested := st.(pageToken := page.nextPageToken,
                           log := st.log + [Request(o, st.pageToken, st.counter)]);
      ProcessPageDedup(fetch, requested, page.results);
      if page.nextPageToken.Some? {
        ProbeLoopDedup(search, rank, fetch, maxResults, o, ProcessPage(fetch, requested, page.results));
      }
    }
  }

  lemma {:induction false} RunProbesDedup(search: Search, rank: Rank, fetch: Fetch, maxResults: int,
                                          probes: seq<Offset>, st: State)
    requires Services(search, rank, fetch) && Dedup(st)
    ensures Dedup(RunProbes(search, rank, fetch, maxResults, probes, st))
    ensures Extends(st, RunProbes(search, rank, fetch, maxResults, probes, st))
    decreases |probes|
  {
    if probes != [] {
      var prefix := probes[..|probes| - 1];
      RunProbesDedup(search, rank, fetch, maxResults, prefix, st);
      ProbeLoopDedup(search, rank, fetch, maxResults, probes[|probes| - 1],
                     RunProbes(search, rank, fetch, maxResults, prefix, st));
    }
  }

  /** No place id is written twice, however many probes return it; the
      counter equals the visited-set size and the number of rows. */
  lemma CrawlNoDuplicateRows(search: Search, rank: Rank, fetch: Fetch, maxResults: int, hopCount: int)
    requires Services(search, rank, fetch)
    ensures var r := Crawl(search, rank, fetch, maxResults, hopCount);
      r.counter == |r.visited| == |r.rows| &&
      r.visited == RowIds(r.rows) &&
      (forall i :: 0 <= i < |r.rows| ==> |r.rows[i]| == RowWidth) &&
      (forall i, j :: 0 <= i < j < |r.rows| ==> r.rows[i][0] != r.rows[j][0]) &&
      RowIds(r.rows) == SeenIds(search, r.log) &&
      (forall i :: 0 <= i < |r.rows| ==> r.rows[i] == BuildRow(r.rows[i][0], fetch(r.rows[i][0])))
  {
    RunProbesDedup(search, rank, fetch, maxResults, GridOffsets(hopCount), Start);
    RunProbesTraced(search, rank, fetch, maxResults, GridOffsets(hopCount), Start);
  }

  // ----- The operational filter -----

  /** The ids of the operational summaries of a page. */
  function OperationalIds(results: seq<Summary>): set<string>
  {
    set i | 0 <= i < |results| && results[i].businessStatus == Operational :: results[i].placeId
  }

  /** The operational summaries of a page, in order. */
  function OnlyOperational(results: seq<Summary>): seq<Summary>
    decreases |results|
  {
    if results == [] then []
    else OnlyOperational(results[..|results| - 1]) +
         (if results[|results| - 1].businessStatus == Operational then [results[|results| - 1]] else [])
  }

  /** Non-operational summaries have no effect at all: processing the page
      gives the same state as processing its operational summaries only. */
  lemma {:induction false} ClosedPlacesIgnored(fetch: Fetch, st: State, results: seq<Summary>)
    requires DetailsOk(fetch)
    ensures ProcessPage(fetch, st, results) == ProcessPage(fetch, st, OnlyOperational(results))
    decreases |results|
  {
    if results != [] {
      var prefix := results[..|results| - 1];
      var s := results[|results| - 1];
      ClosedPlacesIgnored(fetch, st, prefix);
      if s.businessStatus == Operational {
        var filtered := OnlyOperational(results);
        assert filtered == OnlyOperational(prefix) + [s];
        assert filtered[..|filtered| - 1] == OnlyOperational(prefix);
      } else {
        assert OnlyOperational(results) == OnlyOperational(prefix);
      }
    }
  }

  /** After a page, the visited set is the old one plus the ids of the
      page's operational summaries, and nothing else. */
  lemma {:induction false} PageVisits(fetch: Fetch, st: State, results: seq<Summary>)
    requires DetailsOk(fetch)
    ensures ProcessPage(fetch, st, results).visited == st.visited + OperationalIds(results)
    decreases |results|
  {
    if results != [] {
      var prefix := results[..|results| - 1];
      var s := results[|results| - 1];
      PageVisits(fetch, st, prefix);
      var extra := if s.businessStatus == Operational then {s.placeId} else {};
      assert OperationalIds(results) == OperationalIds(prefix) + extra by {
        forall id | id in OperationalIds(results) ensures id in OperationalIds(prefix) + extra {
          var i :| 0 <= i < |results| && results[i].businessStatus == Operational && results[i].placeId == id;
          if i < |prefix| {
            assert prefix[i] == results[i];
          }
        }
        forall id | id in OperationalIds(prefix) ensures id in OperationalIds(results) {
          var i :| 0 <= i < |prefix| && prefix[i].businessStatus == Operational && prefix[i].placeId == id;
          assert results[i] == prefix[i];
        }
      }
    }
  }

  /** A page of `n` distinct operational places none of which was seen
      before adds exactly `n` to the counter and `n` rows. */
  lemma {:induction false} FreshPageCounted(fetch: Fetch, st: State, results: seq<Summary>)
    requires DetailsOk(fetch)
    requires forall i :: 0 <= i < |results| ==> results[i].businessStatus == Operational
    requires forall i :: 0 <= i < |results| ==> results[i].placeId !in st.visited
    requires forall i, j :: 0 <= i < j < |results| ==> results[i].placeId != results[j].placeId
    ensures ProcessPage(fetch, st, results).counter == st.counter + |results|
    ensures |ProcessPage(fetch, st, results).rows| == |st.rows| + |results|
    decreases |results|
  {
    if results != [] {
      var prefix := results[..|results| - 1];
      FreshPageCounted(fetch, st, prefix);
      PageVisits(fetch, st, prefix);
      var s := results[|results| - 1];
      assert s.placeId !in OperationalIds(prefix);
    }
  }

  // ----- Every place seen is written -----

  /** The ids of the operational summaries of every page requested so far. */
  function SeenIds(search: Search, log: seq<Request>): set<string>
    decreases |log|
  {
    if log == [] then {}
    else SeenIds(search, log[..|log| - 1]) + OperationalIds(PageOf(search, Last(log)).results)
  }

  /** Every row written is the row built from its place's detail record. */
  ghost predicate RowsBuilt(fetch: Fetch, rows: seq<seq<string>>)
    requires DetailsOk(fetch)
  {
    forall i :: 0 <= i < |rows| ==> rows[i] != [] && rows[i] == BuildRow(rows[i][0], fetch(rows[i][0]))
  }

  /** The visited set is exactly the operational ids of the pages requested,
      and every row is built from the detail record of its id. */
  ghost predicate Traced(search: Search, fetch: Fetch, st: State)
    requires DetailsOk(fetch)
  {
    st.visited == SeenIds(search, st.log) && RowsBuilt(fetch, st.rows)
  }

  lemma {:induction false} PageBuilt(fetch: Fetch, st: State, results: seq<Summary>)
    requires DetailsOk(fetch) && RowsBuilt(fetch, st.rows)
    ensures RowsBuilt(fetch, ProcessPage(fetch, st, results).rows)
    decreases |results|
  {
    if results != [] {
      var prefix := results[..|results| - 1];
      var s := results[|results| - 1];
      PageBuilt(fetch, st, prefix);
      var m := ProcessPage(fetch, st, prefix);
      if s.businessStatus == Operational && s.placeId !in m.visited {
        var rows := m.rows + [BuildRow(s.placeId, fetch(s.placeId))];
        assert forall i :: 0 <= i < |m.rows| ==> rows[i] == m.rows[i];
      }
    }
  }

  lemma {:induction false} ProbeLoopTraced(search: Search, rank: Rank, fetch: Fetch, maxResults: int,
                                           o: Offset, st: State)
    requires Services(search, rank, fetch) && Traced(search, fetch, st)
    ensures Traced(search, fetch, ProbeLoop(search, rank, fetch, maxResults, o, st))
    decreases rank(o, st.pageToken)
  {
    if st.counter <= maxResults {
      var page := search(o, st.pageToken);
      var req := Request(o, st.pageToken, st.counter);
      var requested := st.(pageToken := page.nextPageToken, log := st.log + [req]);
      assert requested.log[..|requested.log| - 1] == st.log;
      assert SeenIds(search, requested.log) == st.visited + OperationalIds(page.results);
      PageVisits(fetch, requested, page.results);
      PageBuilt(fetch, requested, page.results);
      if page.nextPageToken.Some? {
        ProbeLoopTraced(search, rank, fetch, maxResults, o, ProcessPage(fetch, requested, page.results));
      }
    }
  }

  lemma {:induction false} RunProbesTraced(search: Search, rank: Rank, fetch: Fetch, maxResults: int,
                                           probes: seq<Offset>, st: State)
    requires Services(search, rank, fetch) && Traced(search, fetch, st)
    ensures Traced(search, fetch, RunProbes(search, rank, fetch, maxResults, probes, st))
    decreases |probes|
  {
    if probes != [] {
      var prefix := probes[..|probes| - 1];
      RunProbesTraced(search, rank, fetch, maxResults, prefix, st);
      ProbeLoopTraced(search, rank, fetch, maxResults, probes[|probes| - 1],
                      RunProbes(search, rank, fetch, maxResults, prefix, st));
    }
  }

  // ----- The soft cap -----

  /** Every request was issued while the counter was at most the maximum,
      the recorded counters never decrease, and the counter has grown by at
      most the size of the last page since the last request. */
  predicate CapRespected(search: Search, maxResults: int, st: State)
  {
    (forall i :: 0 <= i < |st.log| ==> st.log[i].counter <= maxResults) &&
    (forall i, j :: 0 <= i < j < |st.log| ==> st.log[i].counter <= st.log[j].counter) &&
    (forall i :: 0 <= i < |st.log| ==> st.log[i].counter <= st.counter) &&
    (st.log == [] ==> st.counter == 0) &&
    (st.log != [] ==> st.counter <= Last(st.log).counter + |PageOf(search, Last(st.log)).results|)
  }

  /** Processing a page raises the counter by at most the page's size. */
  lemma {:induction false} PageCounterBound(fetch: Fetch, st: State, results: seq<Summary>)
    requires DetailsOk(fetch)
    ensures st.counter <= ProcessPage(fetch, st, results).counter <= st.counter + |results|
    decreases |results|
  {
    if results != [] {
      PageCounterBound(fetch, st, results[..|results| - 1]);
    }
  }

  /** The probe loop never lowers the counter. */
  lemma {:induction false} ProbeLoopGrows(search: Search, rank: Rank, fetch: Fetch, maxResults: int,
                                          o: Offset, st: State)
    requires Services(search, rank, fetch)
    ensures st.counter <= ProbeLoop(search, rank, fetch, maxResults, o, st).counter
    decreases rank(o, st.pageToken)
  {
    if st.counter <= maxResults {
      var page := search(o, st.pageToken);
      var requested := st.(pageToken := page.nextPageToken, log := st.log + [Request(o, st.pageToken, st.counter)]);
      PageCounterBound(fetch, requested, page.results);
      if page.nextPageToken.Some? {
        ProbeLoopGrows(search, rank, fetch, maxResults, o, ProcessPage(fetch, requested, page.results));
      }
    }
  }

  lemma {:induction false} ProbeLoopCap(search: Search, rank: Rank, fetch: Fetch, maxResults: int,
                                        o: Offset, st: State)
    requires Services(search, rank, fetch) && CapRespected(search, maxResults, st)
    ensures CapRespected(search, maxResults, ProbeLoop(search, rank, fetch, maxResults, o, st))
    decreases rank(o, st.pageToken)
  {
    if st.counter <= maxResults {
      var page := search(o, st.pageToken);
      var req := Request(o, st.pageToken, st.counter);
      var requested := st.(pageToken := page.nextPageToken, log := st.log + [req]);
      var processed := ProcessPage(fetch, requested, page.results);
      PageCounterBound(fetch, requested, page.results);
      assert Last(processed.log) == req;
      if page.nextPageToken.Some? {
        ProbeLoopCap(search, rank, fetch, maxResults, o, processed);
      }
    }
  }

  lemma {:induction false} RunProbesCap(search: Search, rank: Rank, fetch: Fetch, maxResults: int,
                                        probes: seq<Offset>, st: State)
    requires Services(search, rank, fetch) && CapRespected(search, maxResults, st)
    ensures CapRespected(search, maxResults, RunProbes(search, rank, fetch, maxResults, probes, st))
    decreases |probes|
  {
    if probes != [] {
      var prefix := probes[..|probes| - 1];
      RunProbesCap(search, rank, fetch, maxResults, prefix, st);
      ProbeLoopCap(search, rank, fetch, maxResults, probes[|probes| - 1],
                   RunProbes(search, rank, fetch, maxResults, prefix, st));
    }
  }

  /** Once the counter is past the maximum, later probes change nothing:
      no request is issued and no row is written. */
  lemma {:induction false} OverCapStops(search: Search, rank: Rank, fetch: Fetch, maxResults: int,
                                        probes: seq<Offset>, st: State)
    requires Services(search, rank, fetch) && st.counter > maxResults
    ensures RunProbes(search, rank, fetch, maxResults, probes, st) == st
    decreases |probes|
  {
    if probes != [] {
      OverCapStops(search, rank, fetch, maxResults, probes[..|probes| - 1], st);
    }
  }

  /** The cap is checked before each page, never inside one: every request
      is issued with the counter at most `maxResults`, and the final counter
      exceeds `maxResults` by at most the size of the last page requested. */
  lemma CrawlSoftCap(search: Search, rank: Rank, fetch: Fetch, maxResults: int, hopCount: int)
    requires Services(search, rank, fetch)
    ensures var r := Crawl(search, rank, fetch, maxResults, hopCount);
      (forall i :: 0 <= i < |r.log| ==> r.log[i].counter <= maxResults) &&
      (forall i, j :: 0 <= i < j < |r.log| ==> r.log[i].counter <= r.log[j].counter) &&
      (r.log == [] ==> r.counter == 0) &&
      (r.log != [] ==> r.counter <= maxResults + |PageOf(search, Last(r.log)).results|)
  {
    RunProbesCap(search, rank, fetch, maxResults, GridOffsets(hopCount), Start);
  }

  // ----- Pagination and probe order -----

  /** The probes whose first page was requested (token `None`), in order. */
  function Starts(log: seq<Request>): seq<Offset>
    decreases |log|
  {
    if log == [] then []
    else Starts(log[..|log| - 1]) + (if Last(log).token.None? then [Last(log).probe] else [])
  }

  /** Each request after the first carries the next token of the one before
      it, a request with a token re-queries the previous request's probe,
      and the current token is the last page's next token. */
  predicate Paginated(search: Search, st: State)
  {
    (st.log != [] ==> st.log[0].token.None?) &&
    (forall i :: 0 < i < |st.log| ==> st.log[i].token == PageOf(search, st.log[i - 1]).nextPageToken) &&
    (forall i :: 0 < i < |st.log| && st.log[i].token.Some? ==> st.log[i].probe == st.log[i - 1].probe) &&
    st.pageToken == (if st.log == [] then None else PageOf(search, Last(st.log)).nextPageToken)
  }

  /** Issuing a request with the current token keeps the log paginated. */
  lemma PaginatedRequest(search: Search, st: State, o: Offset)
    requires Paginated(search, st)
    requires st.pageToken.Some? ==> Last(st.log).probe == o
    ensures Paginated(search, st.(pageToken := search(o, st.pageToken).nextPageToken,
                                  log := st.log + [Request(o, st.pageToken, st.counter)]))
  {
    var log := st.log + [Request(o, st.pageToken, st.counter)];
    forall i | 0 < i < |log| ensures log[i].token == PageOf(search, log[i - 1]).nextPageToken {
      if i == |st.log| {
        assert log[i - 1] == Last(st.log);
      }
    }
  }

  /** A request records a new start exactly when it carries no token. */
  lemma StartsRequest(log: seq<Request>, req: Request)
    ensures Starts(log + [req]) == Starts(log) + (if req.token.None? then [req.probe] else [])
  {
    assert (log + [req])[..|log|] == log;
  }

  lemma {:induction false} ProbeLoopPaging(search: Search, rank: Rank, fetch: Fetch, maxResults: int,
                                           o: Offset, st: State)
    requires Services(search, rank, fetch) && Paginated(search, st)
    requires st.pageToken.Some? && st.counter <= maxResults ==> Last(st.log).probe == o
    ensures var r := ProbeLoop(search, rank, fetch, maxResults, o, st);
      Paginated(search, r) &&
      (r.pageToken.Some? ==> r.counter > maxResults) &&
      Starts(r.log) == Starts(st.log) + (if st.pageToken.None? && st.counter <= maxResults then [o] else [])
    decreases rank(o, st.pageToken)
  {
    if st.counter <= maxResults {
      var page := search(o, st.pageToken);
      var requested := st.(pageToken := page.nextPageToken, log := st.log + [Request(o, st.pageToken, st.counter)]);
      var processed := ProcessPage(fetch, requested, page.results);
      PaginatedRequest(search, st, o);
      StartsRequest(st.log, Request(o, st.pageToken, st.counter));
      assert processed.log == requested.log && processed.pageToken == requested.pageToken;
      if page.nextPageToken.Some? {
        assert Last(processed.log).probe == o;
        ProbeLoopPaging(search, rank, fetch, maxResults, o, processed);
      }
    }
  }

  lemma {:induction false} RunProbesPaging(search: Search, rank: Rank, fetch: Fetch, maxResults: int,
                                           probes: seq<Offset>)
    requires Services(search, rank, fetch)
    ensures var r := RunProbes(search, rank, fetch, maxResults, probes, Start);
      Paginated(search, r) &&
      (r.pageToken.Some? ==> r.counter > maxResults) &&
      Starts(r.log) <= probes &&
      (r.counter <= maxResults ==> Starts(r.log) == probes)
    decreases |probes|
  {
    if probes != [] {
      var prefix := probes[..|probes| - 1];
      var o := probes[|probes| - 1];
      var m := RunProbes(search, rank, fetch, maxResults, prefix, Start);
      var r := ProbeLoop(search, rank, fetch, maxResults, o, m);
      assert r == RunProbes(search, rank, fetch, maxResults, probes, Start);
      assert prefix + [o] == probes;
      RunProbesPaging(search, rank, fetch, maxResults, prefix);
      ProbeLoopPaging(search, rank, fetch, maxResults, o, m);
      if m.counter <= maxResults {
        assert m.pageToken.None? && Starts(m.log) == prefix;
        assert Starts(r.log) == probes;
      } else {
        assert r == m;
        ProbeLoopGrows(search, rank, fetch, maxResults, o, m);
        assert Starts(r.log) <= prefix;
      }
    }
  }

  /** Pagination and probe order over the whole grid: the first request has
      no token; each later one carries the previous page's next token; one
      with a token re-queries the same probe, so a new probe always starts
      without one; the probes started are the grid offsets in row-major
      order, a prefix of them, and all of them unless the cap was exceeded. */
  lemma CrawlPagination(search: Search, rank: Rank, fetch: Fetch, maxResults: int, hopCount: int)
    requires Services(search, rank, fetch)
    ensures var r := Crawl(search, rank, fetch, maxResults, hopCount);
      (r.log != [] ==> r.log[0].token.None?) &&
      (forall i :: 0 < i < |r.log| ==> r.log[i].token == PageOf(search, r.log[i - 1]).nextPageToken) &&
      (forall i :: 0 < i < |r.log| && r.log[i].probe != r.log[i - 1].probe ==> r.log[i].token.None?) &&
      Starts(r.log) <= GridOffsets(hopCount) &&
      NoDuplicates(Starts(r.log)) &&
      (r.counter <= maxResults ==> Starts(r.log) == GridOffsets(hopCount))
  {
    RunProbesPaging(search, rank, fetch, maxResults, GridOffsets(hopCount));
    GridNoDuplicates(hopCount);
  }

  // ----- A concrete soft-cap run -----

  function FivePlaces(): seq<Summary>
  {
    [Summary("a", Operational), Summary("b", Operational), Summary("c", Operational),
     Summary("d", Operational), Summary("e", Operational)]
  }

  /** The search service of the example: every probe returns the same
      single page of five places. */
  function FivePlaceSearch(o: Offset, t: Option<Token>): Page
  {
    Page(FivePlaces(), None)
  }

  /** The first probe of the example: one page, five fresh operational
      places, so the counter ends at 5 although the maximum is 3. */
  lemma FirstProbeExample(fetch: Fetch, rank: Rank)
    requires DetailsOk(fetch) && PaginationEnds(FivePlaceSearch, rank)
    ensures var r := ProbeLoop(FivePlaceSearch, rank, fetch, 3, Offset(-1, -1), Start);
      |r.rows| == 5 && r.counter == 5 && |r.log| == 1
  {
    var requested := Start.(log := [Request(Offset(-1, -1), None, 0)]);
    FreshPageCounted(fetch, requested, FivePlaces());
    var page := FivePlaceSearch(Offset(-1, -1), None);
    assert page == Page(FivePlaces(), None);
    assert Start.(pageToken := page.nextPageToken,
                  log := Start.log + [Request(Offset(-1, -1), Start.pageToken, Start.counter)]) == requested;
    assert ProbeLoop(FivePlaceSearch, rank, fetch, 3, Offset(-1, -1), Start)
        == ProcessPage(fetch, requested, FivePlaces());
  }

  /** With `max_results` 3 and every probe returning the same five places on
      a single page, the first probe writes all five rows and every later
      probe is skipped without a request. */
  lemma SoftCapExample(fetch: Fetch, rank: Rank)
    requires DetailsOk(fetch)
    ensures PaginationEnds(FivePlaceSearch, rank)
    ensures var r := Crawl(FivePlaceSearch, rank, fetch, 3, 1);
      |r.rows| == 5 && r.counter == 5 && |r.log| == 1
  {
    var probes := GridOffsets(1);
    GridLength(1);
    GridOrder(1, 0, 0);
    var first := ProbeLoop(FivePlaceSearch, rank, fetch, 3, Offset(-1, -1), Start);
    FirstProbeExample(fetch, rank);
    assert probes == [Offset(-1, -1)] + probes[1..];
    assert [Offset(-1, -1)][..0] == [];
    RunProbesAppend(FivePlaceSearch, rank, fetch, 3, [Offset(-1, -1)], probes[1..], Start);
    OverCapStops(FivePlaceSearch, rank, fetch, 3, probes[1..], first);
  }
}
