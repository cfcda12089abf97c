/** `BaseScraper.run` (src/scrapers/base.js): one incremental scrape of a site.
    The index page's blocks are visited newest first until the block saved as the previous
    run's watermark; each visited block's article is fetched, its text extracted,
    classified and, if classified, upserted. The first visited block's id becomes the new
    watermark. Everything outside this process — the network, the classifier, the store and
    the clock — is the `World` the run is given. */
module Scrape {
  import opened Js
  import opened Seqs
  import opened Blocks
  import opened Sites
  import opened StateStore

  /** What `classifyContent` returns for a matching text. */
  datatype Classification = Classification(brand: string, subbrand: string, sentiment: string)

  /** The record handed to `upsertPost` (its `scrapedAt` clock value left out). */
  datatype Post = Post(
    link: string, brand: string, subbrand: string, sentiment: string,
    platform: string, title: Option<string>, content: string)

  /** `upsertPost` either throws or returns `{success}`. */
  datatype UpsertOutcome = UpsertThrew | UpsertReturned(success: bool)

  /** The environment of a run. `fetch(url, headless)` is `fetchPage` followed by the
      site's selectors (`None`: the fetch threw); `dateKey` stands for `new Date(date)`;
      `now` for `new Date().toISOString()`; `writable` says whether writing the state
      file succeeds. */
  datatype World = World(
    fetch: (string, bool) -> Option<Page>,
    classify: string -> Option<Classification>,
    upsert: Post -> UpsertOutcome,
    dateKey: string -> int,
    now: string,
    writable: bool)

  /** `classifyContent` as src/common/parser.js ships it: nothing ever matches. */
  function StubClassify(text: string): (c: Option<Classification>)
    ensures c.None?
  {
    None
  }

  /** `textContent.substring(0, 500)`: the first 500 characters, or the whole text when it
      is shorter. */
  function Snippet(text: string): (r: string)
    ensures |r| == if |text| <= 500 then |text| else 500
    ensures r == text[..|r|]
  {
    if |text| <= 500 then text else text[..500]
  }

  // ---------------------------------------------------------------- one block

  /** `shouldStop(block, lastState)`: the block is the watermark — its id is a non-empty
      string equal to the saved `lastId`. Without a saved state, or with an empty or absent
      `lastId`, no block is. */
  function ShouldStop(site: Site, b: Block, last: Option<State>): (stop: bool)
    ensures stop <==> last.Some? && Truthy(BlockId(site, b)) && BlockId(site, b) == last.value.lastId
  {
    match last
    case None => false
    case Some(st) => if !Truthy(st.lastId) then false else BlockId(site, b) == st.lastId
  }

  /** The block's article page is fetched and its text extracted, which is what makes the
      block count as processed. */
  predicate Extracts(sc: Scraper, b: Block, w: World) {
    var url := ArticleUrl(sc.site, b);
    url.Some? && w.fetch(url.value, sc.useHeadless).Some?
  }

  /** The block's extracted text is classified and its upsert reports success. */
  predicate Saves(sc: Scraper, b: Block, w: World) {
    && Extracts(sc, b, w)
    && var url := ArticleUrl(sc.site, b).value;
       var text := ExtractContent(sc.site, w.fetch(url, sc.useHeadless).value);
       && w.classify(text).Some?
       && var cls := w.classify(text).value;
          w.upsert(Post(url, cls.brand, cls.subbrand, cls.sentiment, sc.platform, b.title,
                        Snippet(text))) == UpsertReturned(true)
  }

  /** What one visit contributes: the article URL requested, and 0 or 1 to each counter. */
  datatype Step = Step(fetched: seq<string>, processed: nat, saved: nat)

  /** The `try` block of the loop body. Any exception ends the block's processing and is
      swallowed; the counters only move past the point where the exception was thrown. */
  function Visit(sc: Scraper, b: Block, w: World): (s: Step)
    ensures s.saved <= s.processed <= 1
    ensures s.fetched == (match ArticleUrl(sc.site, b) case Some(u) => [u] case None => [])
  {
    match ArticleUrl(sc.site, b)
    case None => Step([], 0, 0)                         // getArticleUrl threw, or no url to fetch
    case Some(url) =>
      match w.fetch(url, sc.useHeadless)
      case None => Step([url], 0, 0)                    // fetchPage threw
      case Some(page) =>
        var text := ExtractContent(sc.site, page);
        match w.classify(text)
        case None => Step([url], 1, 0)                  // "did not match any brand"
        case Some(cls) =>
          var post := Post(url, cls.brand, cls.subbrand, cls.sentiment, sc.platform, b.title,
                           Snippet(text));
          match w.upsert(post)
          case UpsertThrew => Step([url], 1, 0)
          case UpsertReturned(success) => Step([url], 1, if success then 1 else 0)
  }

  /** A visit counts a block as processed exactly when its article is fetched and its text
      extracted, and as saved exactly when, on top of that, the text is classified and the
      upsert reports success. */
  lemma VisitCounts(sc: Scraper, b: Block, w: World)
    ensures Visit(sc, b, w).processed == (if Extracts(sc, b, w) then 1 else 0)
    ensures Visit(sc, b, w).saved == (if Saves(sc, b, w) then 1 else 0)
  {
  }

  // ---------------------------------------------------------------- the loop

  /** Reference counts over a list of visited blocks. */
  function Extracted(sc: Scraper, bs: seq<Block>, w: World): nat {
    if bs == [] then 0 else (if Extracts(sc, bs[0], w) then 1 else 0) + Extracted(sc, bs[1..], w)
  }

  function SavedCount(sc: Scraper, bs: seq<Block>, w: World): nat {
    if bs == [] then 0 else (if Saves(sc, bs[0], w) then 1 else 0) + SavedCount(sc, bs[1..], w)
  }

  /** The article URLs requested for a list of visited blocks, in order. */
  function ArticleUrls(site: Site, bs: seq<Block>): seq<string> {
    FilterMap(bs, b => ArticleUrl(site, b))
  }

  /** `newestId`: `null` until the first visited block, then that block's id (which may be
      `undefined`, and then stays so). */
  datatype Newest = NotYet | Recorded(id: Option<string>)

  /** What the loop leaves behind: the blocks it ran its body for, the article URLs it
      requested, the two counters and `newestId`. */
  datatype Progress = Progress(visited: seq<Block>, fetched: seq<string>, processed: nat, saved: nat,
                               newest: Newest)

  /** What is left of the budget after processing `n` more blocks (never below zero). */
  function Spend(budget: Option<nat>, n: nat): Option<nat> {
    match budget case Some(m) => Some(if n <= m then m - n else 0) case None => None
  }

  /** A prefix of a list's tail, behind the list's head, is a prefix of the list. */
  lemma PrefixCons<T>(xs: seq<T>, ys: seq<T>)
    requires xs != [] && |ys| < |xs| && ys == xs[1..][..|ys|]
    ensures [xs[0]] + ys == xs[..|ys| + 1]
  {
  }

  /** The `for` loop over the sorted blocks. `budget` is `None` for `run()` and, for the
      test twin `runScraperWithLimit`, the number of blocks that may still be processed.
      The loop visits a prefix of the blocks, records the first visited block's id, and
      never processes more than the budget allows: every block it visits is visited while
      fewer blocks than the budget have been processed. */
  function Scan(sc: Scraper, blocks: seq<Block>, last: Option<State>, w: World, budget: Option<nat>)
    : (p: Progress)
    ensures |p.visited| <= |blocks| && p.visited == blocks[..|p.visited|]
    ensures budget.Some? ==> p.processed <= budget.value
    ensures p.newest == if p.visited == [] then NotYet else Recorded(BlockId(sc.site, p.visited[0]))
    ensures budget.Some? && p.visited != [] ==>
              Extracted(sc, p.visited[..|p.visited| - 1], w) < budget.value
    ensures p.visited != [] <==> VisitsFirst(sc.site, blocks, last, budget)
    decreases |blocks|
  {
    if blocks == [] || budget == Some(0) || ShouldStop(sc.site, blocks[0], last) then
      Progress([], [], 0, 0, NotYet)
    else
      var b := blocks[0];
      var step := Visit(sc, b, w);
      assert budget.Some? ==> budget.value != 0 && step.processed <= budget.value;
      var rest := Scan(sc, blocks[1..], last, w, Spend(budget, step.processed));
      var visited := [b] + rest.visited;
      PrefixCons(blocks, rest.visited);
      VisitCounts(sc, b, w);
      BudgetCons(sc, b, rest.visited, w);
      Progress(visited, step.fetched + rest.fetched, step.processed + rest.processed,
               step.saved + rest.saved, Recorded(BlockId(sc.site, b)))
  }

  /** The loop gets as far as the first block: there is one, the budget is not used up
      before it, and it is not the watermark. */
  predicate VisitsFirst(site: Site, blocks: seq<Block>, last: Option<State>, budget: Option<nat>) {
    blocks != [] && budget != Some(0) && !ShouldStop(site, blocks[0], last)
  }

  /** Spending the head's count out of the budget that is left for the tail. */
  lemma BudgetCons(sc: Scraper, b: Block, rest: seq<Block>, w: World)
    ensures var visited := [b] + rest;
            Extracted(sc, visited[..|visited| - 1], w)
            == (if rest == [] then 0
                else (if Extracts(sc, b, w) then 1 else 0) + Extracted(sc, rest[..|rest| - 1], w))
  {
    var visited := [b] + rest;
    if rest != [] {
      var init := visited[..|visited| - 1];
      assert init[0] == b && init[1..] == rest[..|rest| - 1];
    }
  }

  /** The loop visits exactly the longest prefix without a watermark block, cut short, under a
      budget, once the budget is used up. */
  lemma ScanStops(sc: Scraper, blocks: seq<Block>, last: Option<State>, w: World, budget: Option<nat>)
    ensures var p := Scan(sc, blocks, last, w, budget);
            && NoWatermarkIn(sc.site, p.visited, last)
            && (|p.visited| < |blocks| ==>
                  || ShouldStop(sc.site, blocks[|p.visited|], last)
                  || (budget.Some? && p.processed == budget.value))
            && (budget.Some? && p.visited != [] ==>
                  Extracted(sc, p.visited[..|p.visited| - 1], w) < budget.value)
  {
    ScanPassesNoWatermark(sc, blocks, last, w, budget);
    ScanEndsAtWatermark(sc, blocks, last, w, budget);
  }

  /** No block of `bs` is the watermark. */
  predicate NoWatermarkIn(site: Site, bs: seq<Block>, last: Option<State>) {
    forall i :: 0 <= i < |bs| ==> !ShouldStop(site, bs[i], last)
  }

  lemma NoWatermarkCons(site: Site, b: Block, bs: seq<Block>, last: Option<State>)
    requires !ShouldStop(site, b, last) && NoWatermarkIn(site, bs, last)
    ensures NoWatermarkIn(site, [b] + bs, last)
  {
    var r := [b] + bs;
    forall i | 0 <= i < |r|
      ensures !ShouldStop(site, r[i], last)
    {
      if i > 0 {
        assert r[i] == bs[i - 1];
      }
    }
  }

  lemma {:induction false} ScanPassesNoWatermark(sc: Scraper, blocks: seq<Block>, last: Option<State>,
                                                 w: World, budget: Option<nat>)
    ensures NoWatermarkIn(sc.site, Scan(sc, blocks, last, w, budget).visited, last)
    decreases |blocks|
  {
    if !(blocks == [] || budget == Some(0) || ShouldStop(sc.site, blocks[0], last)) {
      var step := Visit(sc, blocks[0], w);
      ScanPassesNoWatermark(sc, blocks[1..], last, w, Spend(budget, step.processed));
      var rest := Scan(sc, blocks[1..], last, w, Spend(budget, step.processed));
      NoWatermarkCons(sc.site, blocks[0], rest.visited, last);
    }
  }

  lemma {:induction false} ScanEndsAtWatermark(sc: Scraper, blocks: seq<Block>, last: Option<State>,
                                               w: World, budget: Option<nat>)
    ensures var p := Scan(sc, blocks, last, w, budget);
            |p.visited| < |blocks| ==>
              || ShouldStop(sc.site, blocks[|p.visited|], last)
              || (budget.Some? && p.processed == budget.value)
    decreases |blocks|
  {
    if !(blocks == [] || budget == Some(0) || ShouldStop(sc.site, blocks[0], last)) {
      var step := Visit(sc, blocks[0], w);
      ScanEndsAtWatermark(sc, blocks[1..], last, w, Spend(budget, step.processed));
      var p := Scan(sc, blocks, last, w, budget);
      var rest := Scan(sc, blocks[1..], last, w, Spend(budget, step.processed));
      assert |p.visited| == 1 + |rest.visited|;
      assert |p.visited| < |blocks| ==> blocks[|p.visited|] == blocks[1..][|rest.visited|];
    }
  }

  /** The counters count what happened to the visited blocks, and only their articles are
      requested. */
  lemma ScanCounts(sc: Scraper, blocks: seq<Block>, last: Option<State>, w: World,
                   budget: Option<nat>)
    ensures var p := Scan(sc, blocks, last, w, budget);
            && p.processed == Extracted(sc, p.visited, w)
            && p.saved == SavedCount(sc, p.visited, w)
            && p.fetched == ArticleUrls(sc.site, p.visited)
  {
    ScanProcessed(sc, blocks, last, w, budget);
    ScanSaved(sc, blocks, last, w, budget);
    ScanFetched(sc, blocks, last, w, budget);
  }

  lemma {:induction false} ScanProcessed(sc: Scraper, blocks: seq<Block>, last: Option<State>, w: World,
                                         budget: Option<nat>)
    ensures var p := Scan(sc, blocks, last, w, budget);
            p.processed == Extracted(sc, p.visited, w)
    decreases |blocks|
  {
    if !(blocks == [] || budget == Some(0) || ShouldStop(sc.site, blocks[0], last)) {
      var b := blocks[0];
      var step := Visit(sc, b, w);
      var rest := Scan(sc, blocks[1..], last, w, Spend(budget, step.processed));
      ScanProcessed(sc, blocks[1..], last, w, Spend(budget, step.processed));
      VisitCounts(sc, b, w);
      var visited := [b] + rest.visited;
      assert Scan(sc, blocks, last, w, budget).visited == visited;
      assert Scan(sc, blocks, last, w, budget).processed == step.processed + rest.processed;
      assert visited[0] == b && visited[1..] == rest.visited;
      assert Extracted(sc, visited, w) == step.processed + Extracted(sc, rest.visited, w);
    }
  }

  lemma {:induction false} ScanSaved(sc: Scraper, blocks: seq<Block>, last: Option<State>, w: World,
                                     budget: Option<nat>)
    ensures var p := Scan(sc, blocks, last, w, budget);
            p.saved == SavedCount(sc, p.visited, w)
    decreases |blocks|
  {
    if !(blocks == [] || budget == Some(0) || ShouldStop(sc.site, blocks[0], last)) {
      var b := blocks[0];
      var step := Visit(sc, b, w);
      var rest := Scan(sc, blocks[1..], last, w, Spend(budget, step.processed));
      ScanSaved(sc, blocks[1..], last, w, Spend(budget, step.processed));
      VisitCounts(sc, b, w);
      var visited := [b] + rest.visited;
      assert Scan(sc, blocks, last, w, budget).visited == visited;
      assert Scan(sc, blocks, last, w, budget).saved == step.saved + rest.saved;
      assert visited[0] == b && visited[1..] == rest.visited;
      assert SavedCount(sc, visited, w) == step.saved + SavedCount(sc, rest.visited, w);
    }
  }

  lemma {:induction false} ScanFetched(sc: Scraper, blocks: seq<Block>, last: Option<State>, w: World,
                                       budget: Option<nat>)
    ensures var p := Scan(sc, blocks, last, w, budget);
            p.fetched == ArticleUrls(sc.site, p.visited)
    decreases |blocks|
  {
    if !(blocks == [] || budget == Some(0) || ShouldStop(sc.site, blocks[0], last)) {
      var b := blocks[0];
      var step := Visit(sc, b, w);
      var rest := Scan(sc, blocks[1..], last, w, Spend(budget, step.processed));
      ScanFetched(sc, blocks[1..], last, w, Spend(budget, step.processed));
      FilterMapAppend([b], rest.visited, b => ArticleUrl(sc.site, b));
      FilterMapSingle(b, b => ArticleUrl(sc.site, b));
    }
  }

  /** Over any list of blocks, at most as many are saved as processed, and at most as many
      processed as visited. */
  lemma {:induction false} CountsOrdered(sc: Scraper, bs: seq<Block>, w: World)
    ensures SavedCount(sc, bs, w) <= Extracted(sc, bs, w) <= |bs|
    decreases |bs|
  {
    if bs != [] {
      CountsOrdered(sc, bs[1..], w);
    }
  }

  // ---------------------------------------------------------------- a run

  /** Why a run throws. */
  datatype RunError = IndexFetchFailed | StateWriteFailed

  /** A run either returns `{processed, saved}` — here with the blocks it visited, the
      article URLs it requested and the state file it leaves — or throws. */
  datatype RunOutcome =
    | Completed(processed: nat, saved: nat, visited: seq<Block>, fetched: seq<string>, file: StateFile)
    | Failed(error: RunError)

  /** The blocks a run iterates over: the site's blocks from the index page, sorted. */
  function Listing(sc: Scraper, index: Page, w: World): seq<Block> {
    SortBlocks(sc.site, ExtractBlocks(sc.site, index.candidates), w.dateKey)
  }

  /** `visited` is a prefix of `listing` without a watermark block, and unless it was `cut`
      short it runs up to a watermark block or to the end of the listing. */
  ghost predicate WatermarkPrefix(site: Site, listing: seq<Block>, visited: seq<Block>,
                                  last: Option<State>, cut: bool) {
    && |visited| <= |listing| && visited == listing[..|visited|]
    && NoWatermarkIn(site, visited, last)
    && (|visited| < |listing| && !cut ==> ShouldStop(site, listing[|visited|], last))
  }

  /** Everything a run reports about its loop, in one place. */
  lemma ScanSummary(sc: Scraper, listing: seq<Block>, last: Option<State>, w: World, limit: Option<nat>)
    ensures var p := Scan(sc, listing, last, w, limit);
            && WatermarkPrefix(sc.site, listing, p.visited, last, limit.Some? && p.processed == limit.value)
            && p.fetched == ArticleUrls(sc.site, p.visited)
            && p.processed == Extracted(sc, p.visited, w) && p.saved == SavedCount(sc, p.visited, w)
            && p.saved <= p.processed <= |p.visited|
            && (limit.Some? && p.visited != [] ==>
                  Extracted(sc, p.visited[..|p.visited| - 1], w) < limit.value)
  {
    var p := Scan(sc, listing, last, w, limit);
    ScanStops(sc, listing, last, w, limit);
    ScanCounts(sc, listing, last, w, limit);
    CountsOrdered(sc, p.visited, w);
  }

  /** The part of a run after the blocks are listed: the loop, then the state write.
      The visited blocks are the prefix of the listing before the watermark (or before the
      limit is reached), only their articles are requested, and the state is written exactly
      when a block was visited, with that first block's id. */
  function Conclude(sc: Scraper, f: StateFile, w: World, listing: seq<Block>, limit: Option<nat>)
    : (o: RunOutcome)
    ensures o.Completed? ==>
              WatermarkPrefix(sc.site, listing, o.visited, GetState(f, sc.name),
                              limit.Some? && o.processed == limit.value)
    ensures o.Completed? ==> o.fetched == ArticleUrls(sc.site, o.visited)
    ensures o.Completed? ==>
              o.processed == Extracted(sc, o.visited, w) && o.saved == SavedCount(sc, o.visited, w)
    ensures o.Completed? ==> o.saved <= o.processed <= |o.visited|
    ensures o.Completed? && limit.Some? ==> o.processed <= limit.value
    ensures o.Completed? && limit.Some? && o.visited != [] ==>
              Extracted(sc, o.visited[..|o.visited| - 1], w) < limit.value
    ensures o.Completed? && o.visited == [] ==> o.file == f
    ensures o.Completed? && o.visited != [] ==>
              o.file == SetState(f, sc.name, State(BlockId(sc.site, o.visited[0]), w.now))
    // the run throws exactly when the first block is visited and the store refuses the write
    ensures o.Failed? <==> !w.writable && VisitsFirst(sc.site, listing, GetState(f, sc.name), limit)
    ensures o.Failed? ==> o.error == StateWriteFailed
  {
    var last := GetState(f, sc.name);
    ScanSummary(sc, listing, last, w, limit);
    Record(sc, f, w, Scan(sc, listing, last, w, limit))
  }

  /** After the loop: the state is written only when a block was visited, and a write the
      store refuses throws; the loop's counters are reported unchanged. */
  function Record(sc: Scraper, f: StateFile, w: World, p: Progress): (o: RunOutcome)
    ensures o.Failed? <==> p.newest.Recorded? && !w.writable
    ensures o.Failed? ==> o.error == StateWriteFailed
    ensures o.Completed? ==>
              && o.processed == p.processed && o.saved == p.saved
              && o.visited == p.visited && o.fetched == p.fetched
    ensures o.Completed? && p.newest == NotYet ==> o.file == f
    ensures o.Completed? && p.newest.Recorded? ==>
              o.file == SetState(f, sc.name, State(p.newest.id, w.now))
  {
    match p.newest
    case NotYet => Completed(p.processed, p.saved, p.visited, p.fetched, f)
    case Recorded(id) =>
      if w.writable then
        Completed(p.processed, p.saved, p.visited, p.fetched, SetState(f, sc.name, State(id, w.now)))
      else Failed(StateWriteFailed)
  }

  /** The body shared by `run()` (no limit) and `runScraperWithLimit` (a limit). */
  function Crawl(sc: Scraper, f: StateFile, w: World, limit: Option<nat>): (o: RunOutcome)
    // the index page cannot be fetched: the run throws before touching anything
    ensures w.fetch(sc.indexUrl, sc.useHeadless).None? ==> o == Failed(IndexFetchFailed)
    // an index page without blocks: {0, 0}, no state written
    ensures w.fetch(sc.indexUrl, sc.useHeadless).Some?
            && ExtractBlocks(sc.site, w.fetch(sc.indexUrl, sc.useHeadless).value.candidates) == []
            ==> o == Completed(0, 0, [], [], f)
    // the visited blocks are the prefix of the listing before the watermark (or the limit)
    ensures o.Completed? ==>
              && w.fetch(sc.indexUrl, sc.useHeadless).Some?
              && WatermarkPrefix(sc.site, Listing(sc, w.fetch(sc.indexUrl, sc.useHeadless).value, w),
                                 o.visited, GetState(f, sc.name),
                                 limit.Some? && o.processed == limit.value)
    // only the visited blocks' articles are requested; the counters count what befell them
    ensures o.Completed? ==> o.fetched == ArticleUrls(sc.site, o.visited)
    ensures o.Completed? ==>
              o.processed == Extracted(sc, o.visited, w) && o.saved == SavedCount(sc, o.visited, w)
    ensures o.Completed? ==> o.saved <= o.processed <= |o.visited|
    ensures o.Completed? && limit.Some? ==> o.processed <= limit.value
    // under a limit, every visited block is visited before the limit is reached
    ensures o.Completed? && limit.Some? && o.visited != [] ==>
              Extracted(sc, o.visited[..|o.visited| - 1], w) < limit.value
    // state is written exactly when a block was visited, with that first block's id
    ensures o.Completed? && o.visited == [] ==> o.file == f
    ensures o.Completed? && o.visited != [] ==>
              o.file == SetState(f, sc.name, State(BlockId(sc.site, o.visited[0]), w.now))
    ensures o.Failed? && o.error == StateWriteFailed ==> !w.writable
    // per-block failures are swallowed: the run throws only when the index page cannot be
    // fetched, or when the first listed block is visited and the store refuses the write
    ensures o == Failed(IndexFetchFailed) <==> w.fetch(sc.indexUrl, sc.useHeadless).None?
    ensures o.Failed? <==>
              || w.fetch(sc.indexUrl, sc.useHeadless).None?
              || (&& !w.writable
                  && VisitsFirst(sc.site, Listing(sc, w.fetch(sc.indexUrl, sc.useHeadless).value, w),
                                 GetState(f, sc.name), limit))
  {
    match w.fetch(sc.indexUrl, sc.useHeadless)
    case None => Failed(IndexFetchFailed)
    case Some(index) =>
      if ExtractBlocks(sc.site, index.candidates) == [] then
        assert |multiset(Listing(sc, index, w))| == 0;
        Completed(0, 0, [], [], f)
      else Conclude(sc, f, w, Listing(sc, index, w), limit)
  }

  /** `run()`: the loop stops exactly at the first watermark block, and the run throws only
      without an index page or when a needed state write is refused. */
  function Run(sc: Scraper, f: StateFile, w: World): (o: RunOutcome)
    ensures o.Completed? ==>
              && w.fetch(sc.indexUrl, sc.useHeadless).Some?
              && WatermarkPrefix(sc.site, Listing(sc, w.fetch(sc.indexUrl, sc.useHeadless).value, w),
                                 o.visited, GetState(f, sc.name), false)
    ensures o.Failed? <==>
              || w.fetch(sc.indexUrl, sc.useHeadless).None?
              || (&& !w.writable
                  && VisitsFirst(sc.site, Listing(sc, w.fetch(sc.indexUrl, sc.useHeadless).value, w),
                                 GetState(f, sc.name), None))
  {
    Crawl(sc, f, w, None)
  }

  /** The watermark is fixed before the first visited block is processed, so it is
      recorded even when fetching that block's article fails. */
  lemma WatermarkSurvivesFailure(sc: Scraper, f: StateFile, w: World, limit: Option<nat>)
    ensures var o := Crawl(sc, f, w, limit);
            o.Completed? && o.visited != [] ==>
              GetState(o.file, sc.name) == Some(State(BlockId(sc.site, o.visited[0]), w.now))
  {
  }

  /** With the shipped classifier nothing is ever saved. */
  lemma {:induction false} StubSavesNothing(sc: Scraper, bs: seq<Block>, w: World)
    requires forall t :: w.classify(t) == StubClassify(t)
    ensures SavedCount(sc, bs, w) == 0
    decreases |bs|
  {
    if bs != [] {
      assert !Saves(sc, bs[0], w);
      StubSavesNothing(sc, bs[1..], w);
    }
  }

  /** So a run with the shipped classifier reports `saved == 0`. */
  lemma StubRunSavesNothing(sc: Scraper, f: StateFile, w: World, limit: Option<nat>)
    requires forall t :: w.classify(t) == StubClassify(t)
    ensures Crawl(sc, f, w, limit).Completed? ==> Crawl(sc, f, w, limit).saved == 0
  {
    var o := Crawl(sc, f, w, limit);
    if o.Completed? {
      StubSavesNothing(sc, o.visited, w);
    }
  }
}
