# Incremental site scraper — a Dafny model

This project models the bookkeeping core of a small Node.js web-scraping service. The
service visits news and blog index pages, fetches the articles that appeared since its last
visit, classifies their text and stores the matches.

The model covers six things:

- **The watermark loop** of `BaseScraper.run` and its test twin `runScraperWithLimit`. The
  blocks of an index page are visited newest first, up to the block whose id was saved as the
  previous run's watermark. Each visited block's article is fetched, extracted, classified and
  upserted, and `processed` and `saved` are counted. The first visited block's id becomes the
  new watermark.
- **The per-site state file**: `getState`, `setState` and `clearState` over one JSON object
  keyed by scraper name. A missing or unreadable file reads as the empty object.
- **The per-site rules** of the five scrapers (`example.js`, `1.js`, `2.js`, `3.js`, `5.js`):
  - which index entries become blocks;
  - the link fallback;
  - block ids and article URLs, with relative and protocol-relative resolution;
  - date ordering;
  - the paragraph filter and join that extracts an article's text.
- **The registry dispatch** of `src/index.js`: enabled entries run in order, and a thrown
  error becomes a zero result.
- **The offline parsing harness** `test/parse-test.js`: its per-site configurations,
  `parseIndex` and `parseArticle`. Its index rules are proved to agree with every scraper's
  block extraction. Its content rules are proved to agree with sites 2, 3 and 5; for the
  example blog and site 1 the harness reads different elements (see "Left out").
- **The JavaScript semantics** these rest on. `undefined` is `Option.None`; strings are
  truthy when non-empty; `a || b` is modelled; `trim` uses the ECMAScript white-space set;
  `.length` counts UTF-16 code units; `startsWith` and `join` are modelled.

The repository's documentation centres on a rule-based boolean keyword matcher for
classification. The code does not contain one: `classifyContent` (src/common/parser.js) is a
stub that always returns `null`. The model follows the code. Classification is an oracle, and
the shipped stub is proved never to save anything.

Everything outside the process is a `World` value handed to a run:

- the network and the cheerio selectors (`fetch`, from a URL and the headless flag to the
  selector output of the page);
- the classifier and the store's `upsertPost`;
- `new Date(...)` on a block's date string, as an integer key;
- the clock (`now`);
- whether the state file can be written.

Selector evaluation is abstracted to the `Candidate` and `Page` records. Everything the code
does with selector output is modelled: trimming, `||` fallbacks, filters, resolution and joins.

Modules, one file each: `Js`, `Seqs` (order-preserving map and filter), `Blocks` (records and
the constructor), `StateStore`, `Sites`, `Scrape`, `ScraperTest`, `Registry` and `ParseTest`.

## Model

| member | source | states |
|---|---|---|
| Js.OrElse | src/scrapers/sites/1.js:28-29 | the JavaScript or-fallback of two strings is the left operand when that one is truthy and the right operand otherwise, so it is truthy iff either operand is |
| Js.Trim | src/scrapers/sites/1.js:32 | `trim()` never lengthens a string and leaves no white space at either end |
| Js.TrimAllSpace | src/scrapers/sites/1.js:32 | `trim()` yields `""` exactly when the string is all white space |
| Js.TrimCutsOnlySpace | src/scrapers/sites/1.js:32 | the trimmed text is the infix of the original left after removing only white space from both ends |
| Js.TrimIdempotent | src/scrapers/sites/1.js:74 | trimming an already trimmed text changes nothing |
| Js.Utf16Length | src/scrapers/sites/1.js:75 | `.length` counts UTF-16 code units: between one and two per character, zero only for the empty string |
| Js.Utf16LengthSingle | src/scrapers/sites/1.js:75 | a character above U+FFFF counts as two UTF-16 units (a surrogate pair), any other character as one |
| Js.Utf16LengthAppend | src/scrapers/sites/1.js:75 | `.length` of a concatenation is the sum of the lengths |
| Js.Join | src/scrapers/sites/1.js:80 | `join` of no parts is `""`, of one part is that part, and otherwise starts with the first part |
| Js.JoinEndsWithLast | src/scrapers/sites/1.js:80 | a `join` of one or more parts ends with the last part |
| Js.JoinAppend | src/scrapers/sites/2.js:68 | joining two non-empty lists back to back puts exactly one separator between their joins |
| Seqs.FilterMap | src/scrapers/sites/1.js:24-46 | an `.each` loop that pushes some elements keeps every element it accepts, emits nothing else, and never outputs more than it read |
| Seqs.FilterMapAppend | src/scrapers/sites/3.js:19-38 | the pushed elements come out in document order: filtering a concatenation concatenates the filtered halves |
| Blocks.NewScraper | src/scrapers/base.js:22-27 | the constructor copies name, index URL and platform; headless fetching is on only when the configuration says `true`, so omitting it means off |
| StateStore.Load | src/common/state.js:19-30 | a missing or unreadable state file reads as the empty object; a stored one reads as its entries |
| StateStore.GetState | src/common/state.js:50-53 | a name yields a state exactly when the file holds an entry for it, and then that entry; otherwise `null` |
| StateStore.SetState | src/common/state.js:61-66 | the written state reads back, and every other name reads as it did before |
| StateStore.ClearState | src/common/state.js:73-78 | the name reads as `null` afterwards, and every other name reads as it did before |
| StateStore.UnreadableIsEmpty | src/common/state.js:20-29 | with a missing or unreadable file, every name reads as `null` |
| StateStore.SetStateTwice | src/common/state.js:61-66 | last write wins: two writes to one name equal the second write alone |
| StateStore.ClearStateTwice | src/common/state.js:73-78 | clearing is idempotent |
| StateStore.SetStateOverUnreadable | src/common/state.js:61-64 | a write over an unreadable file keeps only the entry just written |
| Sites.Create | src/scrapers/sites/3.js:7-12 | each site's exported scraper is of that site, and only the askapatient scraper uses the headless fetch |
| Sites.ExampleScraperConfig | src/scrapers/sites/example.js:12-17 | `createScraper()` yields `example-blog` on platform `blog` with plain GET fetching |
| Sites.NamesDistinct | src/scrapers/sites/1.js:7-12 | no two site scrapers share a name, so they never share a state entry |
| Sites.LinkUrl | src/scrapers/sites/1.js:28-29 | the block link is the main href unless it is absent or empty, in which case it is the fallback href; sites 3 and 5 have no fallback |
| Sites.LinkedBlocks | src/scrapers/sites/1.js:21-46 | a candidate yields a block iff its link and its trimmed title are non-empty; every block comes from a candidate and has no id, a non-empty url and a non-empty title |
| Sites.LinkedBlocksAppend | src/scrapers/sites/5.js:16-40 | sites 1, 2, 3 and 5 keep blocks in document order |
| Sites.ExampleBlocks | src/scrapers/sites/example.js:23-39 | every card becomes one block, in order, with the `data-id` (else the link) as id, the link as url, and trimmed title and date |
| Sites.ExampleBlocksAppend | src/scrapers/sites/example.js:28-36 | the example keeps cards in document order |
| Sites.ExtractBlocksAppend | src/scrapers/sites/2.js:16-41 | every site's `extractBlocks` preserves document order |
| Sites.ExtractBlocks | src/scrapers/sites/2.js:16-41 | never more blocks than candidates; the example keeps one block per card; the other sites' blocks have no id of their own, a non-empty url and a non-empty title |
| Sites.BlockId | src/scrapers/sites/5.js:44-54 | the example's id is its `id` field; on every other site the id exists exactly when the article URL does, and it is the tail of that URL |
| Sites.ResolveExample | src/scrapers/sites/example.js:62-68 | a root-relative url gets the `https://example.com` origin in front; any other url is kept; the result is never root-relative |
| Sites.ResolveProtocolRelative | src/scrapers/sites/5.js:49-54 | `https:` is prefixed exactly when the url starts with `//`; the url is always the tail of the result; the result is never protocol-relative |
| Sites.ResolveIdempotent | src/scrapers/sites/example.js:62-68 | both resolutions (example.js and 5.js) change nothing when applied to their own output |
| Sites.ArticleUrl | src/scrapers/sites/5.js:49-54 | an article URL exists exactly when the block has a url; without one the example and site 5 throw |
| Sites.IdAndArticleUrl | src/scrapers/sites/example.js:55-68 | on sites 1, 2 and 3 the block id and the article URL coincide; on site 5 the id is the raw url and the article URL its resolution; the example's article URL is its url resolved against `https://example.com` |
| Sites.SiteIdsAreTruthy | src/scrapers/sites/5.js:31-46 | every block a real site extracts has a non-empty id |
| Sites.InsertByDate | src/scrapers/sites/example.js:47-49 | inserting into a newest-first list keeps it newest first and adds exactly the one block |
| Sites.SortByDate | src/scrapers/sites/example.js:44-50 | the example's `sortBlocks` returns a permutation of its input, newest first |
| Sites.SortBlocks | src/scrapers/base.js:145-148 | the default `sortBlocks` is the identity; every site's sort is a permutation, and the example's is newest first |
| Sites.KeptParagraphs | src/scrapers/sites/1.js:73-78 | at most one kept text per paragraph element |
| Sites.KeptAreLong | src/scrapers/sites/2.js:61-66 | every kept text is some paragraph's trimmed text, is itself trimmed, and is longer than 10 UTF-16 units |
| Sites.LongAreKept | src/scrapers/sites/3.js:60-65 | every paragraph whose trimmed text is longer than 10 UTF-16 units is kept |
| Sites.ParagraphText | src/scrapers/sites/1.js:73-80 | the extracted text is `""` exactly when no paragraph is long enough, and it is itself trimmed |
| Sites.ParagraphTextSingle | src/scrapers/sites/1.js:73-80 | one paragraph yields its trimmed text if that is longer than 10 UTF-16 units and `""` otherwise; with `ParagraphTextAppend` this fixes the text of any list of paragraphs |
| Sites.NothingKeptIsEmpty | src/scrapers/sites/1.js:80 | the extracted text is `""` exactly when no paragraph was kept |
| Sites.ParagraphTextAppend | src/scrapers/sites/3.js:60-67 | paragraphs keep document order: the texts of two runs of paragraphs join with one blank line between, and a run with nothing kept contributes nothing |
| Sites.ExtractContent | src/scrapers/sites/5.js:57-63 | every site's extracted text is trimmed; for the example and site 5 it is `""` exactly when the content element holds only white space; for sites 1, 2 and 3 exactly when no paragraph is long enough |
| Scrape.ShouldStop | src/scrapers/base.js:183-188 | a block is the watermark iff a state was saved, its `lastId` is a non-empty string, and the block's id equals it |
| Scrape.Visit | src/scrapers/base.js:73-116 | one block adds at most one to each counter, and to `saved` only if also to `processed`; the only URL requested is the block's article URL |
| Scrape.VisitCounts | src/scrapers/base.js:84-111 | a block counts as processed iff its article is fetched and extracted, and as saved iff its text is also classified and the upsert reports success |
| Scrape.Scan | src/scrapers/base.js:57-117 | the loop visits a prefix of the sorted blocks, never processes more than a given budget, visits each block only while fewer than the budget have been processed, records the first visited block's id, and visits some block exactly when the first block is there, the budget is not zero and that block is not the watermark |
| Scrape.ScanStops | test/test-scraper.js:206-217 | the visited prefix holds no watermark block; it ends at the first one, at the end of the list, or when the budget is used up; and no block is visited after the budget is used up |
| Scrape.ScanPassesNoWatermark | src/scrapers/base.js:63-66 | no visited block is the watermark |
| Scrape.ScanEndsAtWatermark | test/test-scraper.js:206-217 | a scan that stops early stops at a watermark block or with the budget exhausted |
| Scrape.ScanCounts | src/scrapers/base.js:85-111 | the counters count what befell the visited blocks, and only their articles are requested |
| Scrape.ScanProcessed | src/scrapers/base.js:84-85 | `processed` is the number of visited blocks whose article was extracted |
| Scrape.ScanSaved | src/scrapers/base.js:108-111 | `saved` is the number of visited blocks whose text was classified and upserted successfully |
| Scrape.ScanFetched | src/scrapers/base.js:75-80 | the articles requested are exactly those of the visited blocks, in order; nothing at or after the watermark is fetched |
| Scrape.CountsOrdered | src/scrapers/base.js:85-111 | `saved <= processed <=` number of visited blocks |
| Scrape.Conclude | src/scrapers/base.js:57-125 | after the blocks are listed: the visited blocks are the listing's prefix before the watermark (or the limit), the counters count what befell them, under a limit no block is visited once the limit is reached, state is written iff a block was visited, with the first visited block's id and the run's time; per-block failures are swallowed, so the run throws exactly when the first listed block is visited and the store refuses the write |
| Scrape.Record | src/scrapers/base.js:119-125 | after the loop the state is written only when a block was visited, with that block's id and the run's time; a write the store refuses is the run's only error, and the counters are reported unchanged |
| Scrape.Crawl | src/scrapers/base.js:33-126 | an unfetchable index throws, and it is the only cause of that error; an empty index returns `{0, 0}` and writes nothing; the run throws exactly when the index is unfetchable or the first listed block is visited and the store refuses the write; otherwise the watermark prefix, counters, stop-at-limit and state write hold as above |
| Scrape.Run | src/scrapers/base.js:33-126 | `run()` visits exactly the prefix before the first watermark block, or the whole listing, and throws exactly when the index is unfetchable or the state write it needs is refused |
| Scrape.WatermarkSurvivesFailure | src/scrapers/base.js:68-73 | the new watermark is recorded even if processing the first visited block fails |
| Scrape.StubSavesNothing | src/common/parser.js:16-27 | with the shipped classifier no visited block is ever saved |
| Scrape.StubRunSavesNothing | src/scrapers/base.js:87-93 | with the shipped classifier every completed run reports `saved == 0` |
| Scrape.StubClassify | src/common/parser.js:16-27 | the shipped `classifyContent` matches no text |
| Scrape.Snippet | src/scrapers/base.js:103 | the stored snippet is the first 500 characters of the text, or the whole text when it is shorter |
| ScraperTest.RunWithLimit | test/test-scraper.js:175-276 | never reports more processed articles than the limit; `processed` counts the visited blocks that were extracted; no block is visited once `limit` blocks have been processed; visits the prefix before the watermark unless the limit cuts it short; writes the first visited id iff a block was visited; completes unless the index is unfetchable or the first listed block is visited and the store refuses the write |
| ScraperTest.FailuresSpendNoBudget | test/test-scraper.js:224-236 | blocks that fail before extraction use up no budget, so more blocks than the limit may be visited |
| ScraperTest.SecondRunProcessesNothing | test/test-scraper.js:130-140 | a second run over the same index, from the state the first left, visits nothing, processes nothing and leaves the state file as it was, provided block ids are non-empty strings |
| ScraperTest.SecondRunOnSiteProcessesNothing | test/test-scraper.js:103-140 | for the four real sites, the limited second run always processes 0 articles |
| Registry.RunScraper | src/index.js:31-40 | `runScraper` never throws: an error in `run()` gives `{0, 0, error}` and leaves the state file untouched; otherwise `run()`'s counters pass through |
| Registry.RunAll | src/index.js:45-64 | exactly the enabled entries run, in registry order, with one sound result each; with none enabled the result is `[]` (which result each run gives is stated by `RunAllSingle`) |
| Registry.RunAllAppend | src/index.js:52-57 | the sweep is sequential: running two registries back to back equals running their concatenation |
| Registry.RunAllSingle | src/index.js:52-56 | an enabled entry contributes its own scraper's `runScraper` result and the file that run leaves; a disabled entry contributes nothing; with `RunAllAppend` this fixes every result of a sweep |
| Registry.DisabledEntryIsSkipped | src/index.js:52-53 | a disabled entry leaves no trace wherever it sits |
| Registry.ShippedSweepIsEmpty | src/index.js:20-26 | with the registry as shipped, a sweep runs nothing and returns `[]` |
| ParseTest.EveryScraperHasConfig | test/parse-test.js:28-154 | every site scraper has a harness configuration under its own name |
| ParseTest.Select | test/parse-test.js:56-63 | the harness getters read the link the scraper uses (with the fallback link for sites 1 and 2), use that link as id except for the example's `data-id` rule, and trim title and date |
| ParseTest.ResolveAgainst | test/parse-test.js:175-178 | a non-empty url starting with `/` gets the base URL in front and nothing else changes; presence and non-emptiness are kept; the url always ends the result |
| ParseTest.ResolveAgainstIdempotent | test/parse-test.js:175-178 | with a base URL that is not root-relative, resolving twice is resolving once |
| ParseTest.ParseBlock | test/parse-test.js:165-184 | a candidate is kept iff its id or url is non-empty; id, title and date are never rewritten, and only the url is resolved |
| ParseTest.ParseIndex | test/parse-test.js:161-187 | every parsed block has a non-empty id or url, and every candidate with one is parsed |
| ParseTest.ParseIndexAppend | test/parse-test.js:165-184 | parsed blocks keep document order |
| ParseTest.IndexAgreesWithScraper | test/parse-test.js:161-187 | the harness parses a scraper's block to the same title and date, with the scraper's id and the url resolved against the base URL; it drops only blocks whose id is empty |
| ParseTest.ExampleBlockSelected | test/parse-test.js:34-35 | the example's harness `getId` and `getUrl` are those of `extractBlocks`, so, reading title and date from the same candidate, the harness builds the scraper's block (the title and date selectors differ; see "Left out") |
| ParseTest.LinkedBlockSelected | test/parse-test.js:57-63 | a site's harness selectors read the scraper's block, with the url doubling as id |
| ParseTest.ContentAgreesWithScraper | test/parse-test.js:90-150 | for sites 2, 3 and 5, whose harness configurations remove the same elements and read the same selectors as the scrapers, `getContent` is `extractContent` |
| ParseTest.GetContent | test/parse-test.js:118-127 | the harness content is trimmed, and `""` exactly when the content element is all white space or no paragraph is long enough |
| ParseTest.ParseArticle | test/parse-test.js:190-203 | `contentLength` is the UTF-16 length of `content` and is 0 iff nothing was extracted; the title is trimmed; a paragraph configuration returns `""` iff no paragraph is long enough |

## Left out

- Network fetching (`src/utils/fetcher.js`): native fetch, the headless browser, timeouts and the browser singleton are I/O. They are the `fetch` oracle.
- Cheerio selector evaluation, including the DOM `.remove()` calls, is an external library. Its output is given as `Candidate` and `Page` records.
- The harness's example-blog selectors: they differ from example.js (`h2, h3, .title`, several block selectors), so the agreement lemmas assume both read the same candidate.
- ParseTest.ContentAgreesWithScraper: stated only for sites 2, 3 and 5. For the example blog the harness reads `article, .article-body, .post-content, main` after also removing `.related` and `.advertisement`, while example.js reads `.article-body`. For site 1 the harness removes `header, footer, nav, .sidebar, .jp-relatedposts, .x-colophon` before its paragraph scan, and 1.js removes nothing. One `Page` record cannot stand for both readings.
- Title selectors: `parseArticle`'s title selectors are abstracted to the page's `heading`.
- Classification is an oracle. The shipped `classifyContent` is the stub `Scrape.StubClassify`. No boolean keyword matcher exists in the code to model.
- `src/common/storage.js` (`upsertPost`) is the `upsert` oracle.
- Clocks: `new Date()` for `lastRun` is one `now` value shared by all runs of a sweep; `scrapedAt` is not modelled.
- Date parsing: `new Date(block.date)` is an integer key per date string. Invalid dates, whose comparator yields `NaN`, are not modelled.
- Sites.SortByDate: the stability of `Array.prototype.sort` is not stated; the contract gives newest-first order and permutation.
- JSON serialisation, `fs`, console logging, CLI argument handling, `node-cron` scheduling, `setupCronJobs` and SIGINT handling are infrastructure.
- async/await is sequential here, so it is modelled as plain sequential evaluation.
- `Object.prototype` names used as scraper names (`__proto__` and the like) are not modelled; names are plain map keys.
- `setState(name, null)` is not modelled; the scrapers always write a `State` record.
- Scrape.Snippet: `substring(0, 500)` is modelled on characters, not UTF-16 code units. Text with characters outside the Basic Multilingual Plane can differ, and lone surrogates cannot be represented.
- StateStore.Load: a file holding valid JSON that is not an object has no representation; the model's file is missing, unreadable or a stored object. `readStateFile` returns whatever `JSON.parse` yields (src/common/state.js:25). With `null`, `getState` throws (state.js:52), so `run()` throws before the index is fetched, and `setState` and `clearState` throw too. With an array, `setState` completes but its entry is dropped by `JSON.stringify`, so every run starts over. With a number, string or boolean, `setState` throws (state.js:63, strict mode). The read-back laws of `StateStore.SetState` and the failure conditions of `Scrape.Crawl`, `Scrape.Run` and `ScraperTest.RunWithLimit` are therefore stated only for files that are missing, unreadable or hold an object.
- StateStore.ClearState: a failed write (which throws in the source) is not modelled. Only the test harness calls it.
- Sites.KeptParagraphs: its own contract only bounds the count. What it keeps is stated by `Sites.KeptAreLong` and `Sites.LongAreKept`.
- Scrape.Run: its contract states the watermark prefix and when the run throws. Counters and the state write are stated on `Scrape.Crawl`, which `Run` is.
- Scrape.Spend: the budget left is clamped at zero. The clamp is never reached, because a block is visited only while the budget is positive and costs at most one.
- ParseTest.ResolveAgainst: the harness resolves a protocol-relative `//host/path` as `baseUrl + "//host/path"`, unlike 5.js. The model follows the harness as written.
- `test/fetch-test.js`, `test/boolean-query-test.js` and the harness's CLI `main` are not part of this model.
