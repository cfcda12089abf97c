/** The offline parsing harness of test/parse-test.js: per-site selector configurations,
    `parseIndex` (block filter and relative-URL resolution) and `parseArticle`. As in the
    scrapers, selector evaluation is abstracted to `Candidate` and `Page` records. */
module ParseTest {
  import opened Js
  import opened Seqs
  import opened Blocks
  import opened Sites

  /** How a configuration's `getId`/`getUrl` read a candidate: the `data-id` falling back to
      the link (url: the link); the link falling back to a second link (both); or the link
      alone (both). */
  datatype IdRule = DataIdOrLink | LinkOrFallback | LinkOnly

  /** How a configuration's `getContent` reads an article: the trimmed text of the content
      element, or the paragraph filter and join. */
  datatype ContentRule = WholeText | Paragraphs

  /** One entry of `siteConfigs`. */
  datatype SiteConfig = SiteConfig(ids: IdRule, content: ContentRule, baseUrl: string)

  /** `siteConfigs`, keyed by site name. */
  const SiteConfigs: map<string, SiteConfig> := map[
    "example-blog" := ConfigFor(ExampleBlog),
    "patientsknowbest-news" := ConfigFor(PkbNews),
    "patientsknowbest-blog" := ConfigFor(PkbBlog),
    "askapatient" := ConfigFor(AskAPatient),
    "emconsulte" := ConfigFor(EmConsulte)
  ]

  /** The harness configuration of a site scraper. */
  function ConfigFor(site: Site): SiteConfig {
    match site
    case ExampleBlog => SiteConfig(DataIdOrLink, WholeText, "https://example.com")
    case PkbNews => SiteConfig(LinkOrFallback, Paragraphs, "https://patientsknowbest.com")
    case PkbBlog => SiteConfig(LinkOrFallback, Paragraphs, "https://blog.patientsknowbest.com/")
    case AskAPatient => SiteConfig(LinkOnly, Paragraphs, "https://www.askapatient.com/news/pharmnews.asp")
    case EmConsulte => SiteConfig(LinkOnly, WholeText, "https://www.em-consulte.com/")
  }

  /** Every site scraper has a harness configuration under its own name, and it is the one
      `ConfigFor` gives. */
  lemma EveryScraperHasConfig(site: Site)
    ensures Create(site).name in SiteConfigs
    ensures SiteConfigs[Create(site).name] == ConfigFor(site)
  {
    match site
    case ExampleBlog => assert Create(site).name == "example-blog";
    case PkbNews => assert Create(site).name == "patientsknowbest-news";
    case PkbBlog => assert Create(site).name == "patientsknowbest-blog";
    case AskAPatient => assert Create(site).name == "askapatient";
    case EmConsulte => assert Create(site).name == "emconsulte";
  }

  // ---------------------------------------------------------------- index

  /** The block object built from one candidate, before resolution: `getId`, `getUrl`,
      and the trimmed title and date texts. The url is the link the site scrapers use (with
      the fallback under `LinkOrFallback`), and apart from the example's `data-id` rule the
      id is that same link. */
  function Select(rule: IdRule, c: Candidate): (b: Block)
    ensures b.title == Some(Trim(c.titleText)) && b.date == Trim(c.dateText)
    ensures rule == LinkOrFallback ==> b.url == LinkUrl(c, true)
    ensures rule != LinkOrFallback ==> b.url == LinkUrl(c, false)
    ensures rule != DataIdOrLink ==> b.id == b.url
    ensures rule == DataIdOrLink ==> b.id == ExampleBlock(c).id
  {
    var title := Some(Trim(c.titleText));
    var date := Trim(c.dateText);
    match rule
    case DataIdOrLink => Block(OrElse(c.dataId, c.href), c.href, title, date)
    case LinkOrFallback => Block(OrElse(c.href, c.altHref), OrElse(c.href, c.altHref), title, date)
    case LinkOnly => Block(c.href, c.href, title, date)
  }

  /** Relative-URL resolution: a non-empty url starting with "/" is prefixed with the base
      URL. Presence and non-emptiness are kept, the original url always ends the result, and
      only the base URL is ever added. */
  function ResolveAgainst(url: Option<string>, baseUrl: string): (r: Option<string>)
    ensures r.Some? <==> url.Some?
    ensures Truthy(r) <==> Truthy(url)
    ensures r.Some? ==> EndsWith(r.value, url.value)
    ensures r != url <==> Truthy(url) && StartsWith(url.value, "/") && baseUrl != ""
    ensures r != url ==> r == Some(baseUrl + url.value)
  {
    if Truthy(url) && StartsWith(url.value, "/") then
      var u := url.value;
      assert (baseUrl + u)[|baseUrl + u| - |u|..] == u;
      assert baseUrl != "" ==> |baseUrl + u| != |u|;
      Some(baseUrl + u)
    else url
  }

  /** With a base URL that is not itself root-relative, resolving twice is resolving once. */
  lemma ResolveAgainstIdempotent(url: Option<string>, baseUrl: string)
    requires !StartsWith(baseUrl, "/")
    ensures ResolveAgainst(ResolveAgainst(url, baseUrl), baseUrl) == ResolveAgainst(url, baseUrl)
  {
    var r := ResolveAgainst(url, baseUrl);
    if r != url {
      assert r.value[0] == baseUrl[0];
    }
  }

  /** The loop body of `parseIndex` for one candidate: the url is resolved, then the block
      is pushed iff its id or its url is non-empty. Id, title and date are never rewritten. */
  function ParseBlock(cfg: SiteConfig, c: Candidate): (r: Option<Block>)
    ensures r.Some? <==> Truthy(Select(cfg.ids, c).id) || Truthy(Select(cfg.ids, c).url)
    ensures r.Some? ==>
              var raw := Select(cfg.ids, c);
              && r.value.id == raw.id && r.value.title == raw.title && r.value.date == raw.date
              && r.value.url == ResolveAgainst(raw.url, cfg.baseUrl)
  {
    var raw := Select(cfg.ids, c);
    var block := raw.(url := ResolveAgainst(raw.url, cfg.baseUrl));
    if Truthy(block.id) || Truthy(block.url) then Some(block) else None
  }

  /** `parseIndex($, config)`: every block has a non-empty id or url, and every candidate with
      a non-empty id or url yields its block. */
  function ParseIndex(cfg: SiteConfig, cands: seq<Candidate>): (r: seq<Block>)
    ensures |r| <= |cands|
    ensures forall k :: 0 <= k < |r| ==> Truthy(r[k].id) || Truthy(r[k].url)
    ensures forall i :: 0 <= i < |cands| && (Truthy(Select(cfg.ids, cands[i]).id)
                                             || Truthy(Select(cfg.ids, cands[i]).url)) ==>
              ParseBlock(cfg, cands[i]).value in r
  {
    ParseIndexSound(cfg, cands);
    FilterMap(cands, c => ParseBlock(cfg, c))
  }

  lemma ParseIndexSound(cfg: SiteConfig, cands: seq<Candidate>)
    ensures var r := FilterMap(cands, c => ParseBlock(cfg, c));
            forall k :: 0 <= k < |r| ==> Truthy(r[k].id) || Truthy(r[k].url)
  {
    var f := c => ParseBlock(cfg, c);
    var r := FilterMap(cands, f);
    forall k | 0 <= k < |r|
      ensures Truthy(r[k].id) || Truthy(r[k].url)
    {
      var i :| 0 <= i < |cands| && f(cands[i]) == Some(r[k]);
      assert ParseBlock(cfg, cands[i]) == Some(r[k]);
    }
  }

  /** Blocks come out in document order. */
  lemma ParseIndexAppend(cfg: SiteConfig, a: seq<Candidate>, b: seq<Candidate>)
    ensures ParseIndex(cfg, a + b) == ParseIndex(cfg, a) + ParseIndex(cfg, b)
  {
    FilterMapAppend(a, b, c => ParseBlock(cfg, c));
  }

  /** The harness's configuration reproduces each scraper's blocks: a candidate the scraper
      turns into block `b` is parsed into `b` with the block's id as id and its url resolved,
      unless that id is empty (possible only for the example blog). The harness is the more
      lenient: it also keeps blocks without a title, which the site scrapers drop. */
  lemma IndexAgreesWithScraper(site: Site, c: Candidate)
    requires site == ExampleBlog || (Truthy(LinkUrl(c, HasFallbackLink(site))) && Trim(c.titleText) != "")
    ensures |ExtractBlocks(site, [c])| == 1
    ensures var b := ExtractBlocks(site, [c])[0];
            var cfg := ConfigFor(site);
            ParseIndex(cfg, [c])
            == if Truthy(BlockId(site, b))
               then [Block(BlockId(site, b), ResolveAgainst(b.url, cfg.baseUrl), b.title, b.date)]
               else []
  {
    var cfg := ConfigFor(site);
    ParseIndexSingle(cfg, c);
    if site == ExampleBlog {
      ExampleBlockSelected(c);
    } else {
      LinkedBlockSelected(site, c);
    }
  }

  lemma ParseIndexSingle(cfg: SiteConfig, c: Candidate)
    ensures ParseIndex(cfg, [c]) == if ParseBlock(cfg, c).Some? then [ParseBlock(cfg, c).value] else []
  {
    FilterMapSingle(c, c => ParseBlock(cfg, c));
  }

  /** The example blog's block is exactly what its harness configuration selects. */
  lemma ExampleBlockSelected(c: Candidate)
    ensures ExtractBlocks(ExampleBlog, [c]) == [Select(ConfigFor(ExampleBlog).ids, c)]
  {
  }

  /** A site scraper's block is what the harness selects, with the url standing in as id. */
  lemma LinkedBlockSelected(site: Site, c: Candidate)
    requires site != ExampleBlog
    requires Truthy(LinkUrl(c, HasFallbackLink(site))) && Trim(c.titleText) != ""
    ensures |ExtractBlocks(site, [c])| == 1
    ensures var b := ExtractBlocks(site, [c])[0];
            Truthy(b.url) && Select(ConfigFor(site).ids, c) == b.(id := b.url)
  {
    var fallback := HasFallbackLink(site);
    assert ConfigFor(site).ids == if fallback then LinkOrFallback else LinkOnly;
    FilterMapSingle(c, c => LinkedBlock(c, fallback));
  }

  // ---------------------------------------------------------------- article

  /** A configuration's `getContent`: always trimmed, and empty exactly when the content
      element is all white space, or when no paragraph is long enough. */
  function GetContent(rule: ContentRule, page: Page): (text: string)
    ensures Trimmed(text)
    ensures rule == WholeText ==>
              (text == "" <==> forall i :: 0 <= i < |page.mainText| ==> IsSpace(page.mainText[i]))
    ensures rule == Paragraphs ==>
              (text == "" <==> forall i :: 0 <= i < |page.paragraphs| ==>
                                 Utf16Length(Trim(page.paragraphs[i])) <= 10)
  {
    TrimAllSpace(page.mainText);
    match rule
    case WholeText => Trim(page.mainText)
    case Paragraphs => ParagraphText(page.paragraphs)
  }

  /** For sites 2, 3 and 5, whose harness configurations remove the same elements and read
      the same selectors as the scrapers, the harness's content rule is the scraper's
      `extractContent`. (For the example blog the harness reads a wider selector, and for
      site 1 it prunes elements the scraper keeps, so one `Page` does not stand for both.) */
  lemma ContentAgreesWithScraper(site: Site, page: Page)
    requires site in {PkbBlog, AskAPatient, EmConsulte}
    ensures GetContent(ConfigFor(site).content, page) == ExtractContent(site, page)
  {
  }

  /** What `parseArticle` returns. */
  datatype Article = Article(title: string, content: string, contentLength: nat)

  /** `parseArticle($, config)`: `getContent` is evaluated twice, once for `content` and once
      for `contentLength`; it is deterministic (after the removal the page no longer changes),
      so both calls give the same text. The length is the content's length in UTF-16 code
      units, and it is zero exactly when nothing was extracted. */
  function ParseArticle(cfg: SiteConfig, page: Page): (a: Article)
    ensures a.contentLength == Utf16Length(a.content)
    ensures a.contentLength == 0 <==> a.content == ""
    ensures a.title == Trim(page.heading)
    ensures cfg.content == Paragraphs ==>
              (a.content == "" <==> forall i :: 0 <= i < |page.paragraphs| ==>
                                      Utf16Length(Trim(page.paragraphs[i])) <= 10)
  {
    var content := GetContent(cfg.content, page);
    Article(Trim(page.heading), content, Utf16Length(content))
  }
}
