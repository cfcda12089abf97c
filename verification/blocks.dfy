/** The records `BaseScraper` (src/scrapers/base.js) works with: the blocks a site's index
    page lists, the raw selector output they are built from, and a scraper's configuration. */
module Blocks {
  import opened Js

  /** One entry of an index page. Site scrapers fill `url`, `title` and `date`; the example
      scraper also fills `id`. Absent fields are `undefined`. */
  datatype Block = Block(id: Option<string>, url: Option<string>, title: Option<string>, date: string)

  /** What a site's cheerio selectors read from one index-page element, before any
      trimming or filtering: a `data-id` attribute, the href of the element's main link
      and of its fallback link, and the raw text of its title and date elements. */
  datatype Candidate = Candidate(
    dataId: Option<string>,
    href: Option<string>,
    altHref: Option<string>,
    titleText: string,
    dateText: string)

  /** What a site's selectors read from one fetched page: the index candidates, the raw
      texts of the article's paragraph elements, the text of its main content element and
      the text of its heading. */
  datatype Page = Page(
    candidates: seq<Candidate>,
    paragraphs: seq<string>,
    mainText: string,
    heading: string)

  /** The site scrapers of src/scrapers/sites, one per subclass of `BaseScraper`. */
  datatype Site =
    | ExampleBlog   // example.js
    | PkbNews       // 1.js
    | PkbBlog       // 2.js
    | AskAPatient   // 3.js
    | EmConsulte    // 5.js

  /** The object a subclass passes to the `BaseScraper` constructor. */
  datatype Config = Config(name: string, indexUrl: string, platform: string, useHeadless: Option<bool>)

  /** A constructed scraper: its configuration plus which subclass it is. */
  datatype Scraper = Scraper(name: string, indexUrl: string, platform: string, useHeadless: bool, site: Site)

  /** The `BaseScraper` constructor: copies the configuration, and `useHeadless ?? false`
      makes an omitted headless flag mean a plain GET. */
  function NewScraper(cfg: Config, site: Site): (s: Scraper)
    ensures s.name == cfg.name && s.indexUrl == cfg.indexUrl && s.platform == cfg.platform
    ensures s.site == site
    ensures s.useHeadless <==> cfg.useHeadless == Some(true)
  {
    Scraper(cfg.name, cfg.indexUrl, cfg.platform,
            match cfg.useHeadless case Some(h) => h case None => false,
            site)
  }
}
