/** The end-to-end test of test/test-scraper.js: `runScraperWithLimit`, the watermark loop
    with a cap on processed articles, and the expectation that a second run over an
    unchanged index page processes nothing. */
module ScraperTest {
  import opened Js
  import opened Blocks
  import opened Sites
  import opened StateStore
  import opened Scrape

  /** `MAX_ARTICLES_TO_TEST`. */
  const MaxArticlesToTest: nat := 3

  /** `runScraperWithLimit(scraper, limit)`: `run()` with a `processed >= limit` check ahead of
      the watermark check. It never reports more than `limit` processed articles, it visits
      the prefix before the watermark unless the limit cuts it short, it visits no block
      once `limit` blocks have been processed, and it completes unless the index page cannot
      be fetched or the state write is refused. */
  function RunWithLimit(sc: Scraper, f: StateFile, w: World, limit: nat): (o: RunOutcome)
    ensures o.Completed? ==> o.processed <= limit
    ensures o.Completed? ==> o.processed == Extracted(sc, o.visited, w)
    ensures o.Completed? && o.visited != [] ==> Extracted(sc, o.visited[..|o.visited| - 1], w) < limit
    ensures o.Completed? ==> o.saved <= o.processed
    ensures o.Completed? ==>
              && w.fetch(sc.indexUrl, sc.useHeadless).Some?
              && WatermarkPrefix(sc.site, Listing(sc, w.fetch(sc.indexUrl, sc.useHeadless).value, w),
                                 o.visited, GetState(f, sc.name), o.processed == limit)
    ensures o.Completed? && o.visited != [] ==>
              GetState(o.file, sc.name) == Some(State(BlockId(sc.site, o.visited[0]), w.now))
    ensures o.Completed? && o.visited == [] ==> o.file == f
    // a block that fails is skipped; the run throws only without an index page, or when the
    // first listed block is visited and the store refuses the write
    ensures o == Failed(IndexFetchFailed) <==> w.fetch(sc.indexUrl, sc.useHeadless).None?
    ensures o.Failed? <==>
              || w.fetch(sc.indexUrl, sc.useHeadless).None?
              || (&& !w.writable
                  && VisitsFirst(sc.site, Listing(sc, w.fetch(sc.indexUrl, sc.useHeadless).value, w),
                                 GetState(f, sc.name), Some(limit)))
  {
    Crawl(sc, f, w, Some(limit))
  }

  /** Blocks whose article cannot be fetched do not use up the budget: over blocks none of
      which gets as far as extraction, a positive budget makes no difference to which blocks
      are visited, so more blocks than the limit may be visited. */
  lemma {:induction false} FailuresSpendNoBudget(sc: Scraper, blocks: seq<Block>, last: Option<State>,
                                                 w: World, n: nat)
    requires n > 0
    requires forall i :: 0 <= i < |blocks| ==> !Extracts(sc, blocks[i], w)
    ensures Scan(sc, blocks, last, w, Some(n)).visited == Scan(sc, blocks, last, w, None).visited
    decreases |blocks|
  {
    if blocks != [] && !ShouldStop(sc.site, blocks[0], last) {
      VisitCounts(sc, blocks[0], w);
      assert Spend(Some(n), Visit(sc, blocks[0], w).processed) == Some(n);
      FailuresSpendNoBudget(sc, blocks[1..], last, w, n);
    }
  }

  /** The run-twice expectation: after a completed run, a second run against the same index
      page and the state file the first left behind visits no block, processes nothing and
      writes nothing — provided the blocks carry non-empty string ids. (Without that, as with
      the example blog's blocks lacking both a `data-id` and a link, the saved `lastId` is
      `undefined`, `shouldStop` never fires, and the second run starts over.) */
  lemma SecondRunProcessesNothing(sc: Scraper, f: StateFile, w: World, limit: Option<nat>)
    requires Crawl(sc, f, w, limit).Completed?
    requires w.fetch(sc.indexUrl, sc.useHeadless).Some? ==>
               forall b :: b in ExtractBlocks(sc.site, w.fetch(sc.indexUrl, sc.useHeadless).value.candidates)
                 ==> Truthy(BlockId(sc.site, b))
    ensures var first := Crawl(sc, f, w, limit);
            var second := Crawl(sc, first.file, w, limit);
            && second.Completed?
            && second.visited == [] && second.processed == 0 && second.saved == 0
            && second.file == first.file
  {
    var first := Crawl(sc, f, w, limit);
    var index := w.fetch(sc.indexUrl, sc.useHeadless).value;
    var extracted := ExtractBlocks(sc.site, index.candidates);
    if extracted == [] || first.visited == [] {
      // nothing was written, so the second run is the first run again
      assert first.file == f;
    } else {
      var listing := Listing(sc, index, w);
      var b := first.visited[0];
      assert b == listing[0];
      assert b in multiset(listing);
      assert b in extracted;
      var last := GetState(first.file, sc.name);
      assert last == Some(State(BlockId(sc.site, b), w.now));
      assert ShouldStop(sc.site, listing[0], last);
      assert Scan(sc, listing, last, w, limit).visited == [];
    }
  }

  /** For the four real sites every block's id is its (non-empty) url, so the second run
      always processes nothing; test-scraper.js runs this against 1.js. */
  lemma SecondRunOnSiteProcessesNothing(site: Site, f: StateFile, w: World)
    requires site != ExampleBlog
    requires RunWithLimit(Create(site), f, w, MaxArticlesToTest).Completed?
    ensures var sc := Create(site);
            var first := RunWithLimit(sc, f, w, MaxArticlesToTest);
            var second := RunWithLimit(sc, first.file, w, MaxArticlesToTest);
            second.Completed? && second.processed == 0 && second.file == first.file
  {
    var sc := Create(site);
    var index := w.fetch(sc.indexUrl, sc.useHeadless);
    if index.Some? {
      SiteIdsAreTruthy(site, index.value.candidates);
    }
    SecondRunProcessesNothing(sc, f, w, Some(MaxArticlesToTest));
  }
}
