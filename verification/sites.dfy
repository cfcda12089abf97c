/** The per-site rules of src/scrapers/sites: how each subclass of `BaseScraper` builds
    blocks from its index page, identifies them, turns them into article URLs, orders them
    and extracts an article's text. Selector evaluation is abstracted to the `Candidate`
    and `Page` records; everything done to their output is modelled here. */
module Sites {
  import opened Js
  import opened Seqs
  import opened Blocks

  // ---------------------------------------------------------------- configuration

  /** The object each subclass passes to `super(...)`. */
  function ConfigOf(site: Site): Config {
    match site
    case ExampleBlog => Config("example-blog", "https://example.com/blog", "blog", Some(false))
    case PkbNews => Config("patientsknowbest-news", "https://patientsknowbest.com/news/",
                           "PatientsKnowBest-News", Some(false))
    case PkbBlog => Config("patientsknowbest-blog", "https://blog.patientsknowbest.com/",
                           "PatientsKnowBest-Blog", Some(false))
    case AskAPatient => Config("askapatient", "https://www.askapatient.com/news/pharmnews.asp",
                               "AskAPatient", Some(true))
    case EmConsulte => Config("emconsulte", "https://www.em-consulte.com/", "EmConsulte", Some(false))
  }

  /** The scraper instance a site module exports (`createScraper()` for the example). */
  function Create(site: Site): (s: Scraper)
    ensures s.site == site
    ensures s.useHeadless <==> site == AskAPatient
  {
    NewScraper(ConfigOf(site), site)
  }

  /** `createScraper()` of example.js yields the 'example-blog' scraper on platform 'blog'
      with plain GET fetching. */
  lemma ExampleScraperConfig()
    ensures Create(ExampleBlog).name == "example-blog"
    ensures Create(ExampleBlog).platform == "blog"
    ensures !Create(ExampleBlog).useHeadless
  {
  }

  /** Every site scraper has its own name, so their saved states never share an entry. */
  lemma NamesDistinct(a: Site, b: Site)
    requires a != b
    ensures Create(a).name != Create(b).name
  {
  }

  // ---------------------------------------------------------------- index blocks

  /** The link a block is built from: the main href, or, for sites that have one,
      the fallback href when the main one is absent or empty (`a || b`). */
  function LinkUrl(c: Candidate, fallback: bool): (u: Option<string>)
    ensures !fallback ==> u == c.href
    ensures fallback && Truthy(c.href) ==> u == c.href
    ensures fallback && !Truthy(c.href) ==> u == c.altHref
  {
    if fallback then OrElse(c.href, c.altHref) else c.href
  }

  /** The block pushed for one candidate by sites 1, 2, 3 and 5, if it is pushed. */
  function LinkedBlock(c: Candidate, fallback: bool): Option<Block> {
    var url := LinkUrl(c, fallback);
    var title := Trim(c.titleText);
    if Truthy(url) && title != "" then Some(Block(None, url, Some(title), Trim(c.dateText)))
    else None
  }

  /** `extractBlocks` of sites 1, 2, 3 and 5: a candidate becomes a block exactly when its
      link and its trimmed title are both non-empty; blocks keep document order. */
  function LinkedBlocks(cands: seq<Candidate>, fallback: bool): (r: seq<Block>)
    ensures |r| <= |cands|
    ensures forall k :: 0 <= k < |r| ==>
              && r[k].id.None? && Truthy(r[k].url)
              && r[k].title.Some? && r[k].title.value != ""
    ensures forall i :: 0 <= i < |cands| && Truthy(LinkUrl(cands[i], fallback))
                        && Trim(cands[i].titleText) != "" ==>
              Block(None, LinkUrl(cands[i], fallback), Some(Trim(cands[i].titleText)),
                    Trim(cands[i].dateText)) in r
    ensures forall k :: 0 <= k < |r| ==> LinkedFrom(r[k], cands, fallback)
  {
    LinkedBlocksSound(cands, fallback);
    FilterMap(cands, c => LinkedBlock(c, fallback))
  }

  /** `b` is the block some candidate yields. */
  ghost predicate LinkedFrom(b: Block, cands: seq<Candidate>, fallback: bool) {
    exists i :: 0 <= i < |cands| && LinkedBlock(cands[i], fallback) == Some(b)
  }

  lemma LinkedBlocksSound(cands: seq<Candidate>, fallback: bool)
    ensures var r := FilterMap(cands, c => LinkedBlock(c, fallback));
            forall k :: 0 <= k < |r| ==>
              && LinkedFrom(r[k], cands, fallback)
              && r[k].id.None? && Truthy(r[k].url)
              && r[k].title.Some? && r[k].title.value != ""
  {
    var f := c => LinkedBlock(c, fallback);
    var r := FilterMap(cands, f);
    forall k | 0 <= k < |r|
      ensures LinkedFrom(r[k], cands, fallback)
      ensures r[k].id.None? && Truthy(r[k].url) && r[k].title.Some? && r[k].title.value != ""
    {
      var i :| 0 <= i < |cands| && f(cands[i]) == Some(r[k]);
      assert LinkedBlock(cands[i], fallback) == Some(r[k]);
    }
  }

  /** The block example.js pushes for one `.article-card`: the `data-id` as id, falling back
      to the link's href. */
  function ExampleBlock(c: Candidate): Block {
    Block(OrElse(c.dataId, c.href), c.href, Some(Trim(c.titleText)), Trim(c.dateText))
  }

  /** `extractBlocks` of example.js: every `.article-card` becomes a block, in document order. */
  function ExampleBlocks(cands: seq<Candidate>): (r: seq<Block>)
    ensures |r| == |cands|
    ensures forall k :: 0 <= k < |r| ==>
              && r[k].id == OrElse(cands[k].dataId, cands[k].href)
              && r[k].url == cands[k].href
              && r[k].title == Some(Trim(cands[k].titleText))
              && r[k].date == Trim(cands[k].dateText)
  {
    Map(cands, ExampleBlock)
  }

  /** Sites 1 and 2 fall back to a second link when the first has no href; 3 and 5 do not. */
  predicate HasFallbackLink(site: Site) {
    site == PkbNews || site == PkbBlog
  }

  /** Each site's `extractBlocks`: the example keeps one block per card; the other sites keep
      only titled, linked candidates, whose blocks carry no id of their own. */
  function ExtractBlocks(site: Site, cands: seq<Candidate>): (r: seq<Block>)
    ensures |r| <= |cands|
    ensures site == ExampleBlog ==> |r| == |cands|
    ensures forall k :: 0 <= k < |r| ==> r[k].title.Some?
    ensures site != ExampleBlog ==>
              forall k :: 0 <= k < |r| ==> r[k].id.None? && Truthy(r[k].url) && r[k].title.value != ""
  {
    if site == ExampleBlog then ExampleBlocks(cands) else LinkedBlocks(cands, HasFallbackLink(site))
  }

  /** Blocks come out in document order: the blocks of two consecutive runs of candidates
      are the blocks of the first run followed by those of the second. */
  lemma ExtractBlocksAppend(site: Site, a: seq<Candidate>, b: seq<Candidate>)
    ensures ExtractBlocks(site, a + b) == ExtractBlocks(site, a) + ExtractBlocks(site, b)
  {
    if site == ExampleBlog {
      ExampleBlocksAppend(a, b);
    } else {
      LinkedBlocksAppend(a, b, HasFallbackLink(site));
    }
  }

  lemma ExampleBlocksAppend(a: seq<Candidate>, b: seq<Candidate>)
    ensures ExampleBlocks(a + b) == ExampleBlocks(a) + ExampleBlocks(b)
  {
    MapAppend(a, b, ExampleBlock);
  }

  lemma LinkedBlocksAppend(a: seq<Candidate>, b: seq<Candidate>, fallback: bool)
    ensures LinkedBlocks(a + b, fallback) == LinkedBlocks(a, fallback) + LinkedBlocks(b, fallback)
  {
    FilterMapAppend(a, b, c => LinkedBlock(c, fallback));
  }

  // ---------------------------------------------------------------- ids and URLs

  /** `getBlockId`: the example keys blocks by `id`, the sites by their raw `url`. On every
      site but the example the id exists exactly when the article URL does, and it is the
      tail of that URL. */
  function BlockId(site: Site, b: Block): (r: Option<string>)
    ensures site == ExampleBlog ==> r == b.id
    ensures site != ExampleBlog ==> (r.Some? <==> ArticleUrl(site, b).Some?)
    ensures site != ExampleBlog && r.Some? ==> EndsWith(ArticleUrl(site, b).value, r.value)
  {
    if site == ExampleBlog then b.id else b.url
  }

  const ExampleOrigin: string := "https://example.com"

  /** example.js `getArticleUrl` on a present url: a root-relative url is prefixed with the
      site's origin, anything else is kept. The result is never root-relative. */
  function ResolveExample(u: string): (r: string)
    ensures StartsWith(u, "/") ==> r == ExampleOrigin + u
    ensures !StartsWith(u, "/") ==> r == u
    ensures !StartsWith(r, "/")
  {
    if StartsWith(u, "/") then
      assert (ExampleOrigin + u)[0] == 'h';
      ExampleOrigin + u
    else u
  }

  /** 5.js `getArticleUrl` on a present url: `https:` is put in front exactly when the url
      is protocol-relative; the url itself is always the tail of the result. The result is
      never protocol-relative. */
  function ResolveProtocolRelative(u: string): (r: string)
    ensures StartsWith(u, "//") <==> r == "https:" + u
    ensures !StartsWith(u, "//") <==> r == u
    ensures EndsWith(r, u)
    ensures !StartsWith(r, "//")
  {
    if StartsWith(u, "//") then
      assert ("https:" + u)[0] == 'h';
      "https:" + u
    else u
  }

  /** Resolving an already resolved url changes nothing (example.js and 5.js). */
  lemma ResolveIdempotent(u: string)
    ensures ResolveExample(ResolveExample(u)) == ResolveExample(u)
    ensures ResolveProtocolRelative(ResolveProtocolRelative(u)) == ResolveProtocolRelative(u)
  {
  }

  /** `getArticleUrl`; `None` where the source throws or yields `undefined`, which happens
      only for a block without a url. Sites 1, 2 and 3 return the url as it is. */
  function ArticleUrl(site: Site, b: Block): (r: Option<string>)
    ensures r.Some? <==> b.url.Some?
  {
    match b.url
    case None => None
    case Some(u) =>
      match site
      case ExampleBlog => Some(ResolveExample(u))
      case EmConsulte => Some(ResolveProtocolRelative(u))
      case _ => Some(u)
  }

  /** On sites 1, 2 and 3 a block's id and its article URL coincide; on site 5 the id is the
      raw url, so the watermark compares unresolved urls. The example's article URL is its
      url resolved against `https://example.com`, whatever its id. */
  lemma IdAndArticleUrl(site: Site, b: Block)
    ensures site in {PkbNews, PkbBlog, AskAPatient} ==> BlockId(site, b) == ArticleUrl(site, b)
    ensures site == EmConsulte && b.url.Some? ==>
              BlockId(site, b) == b.url
              && ArticleUrl(site, b) == Some(ResolveProtocolRelative(b.url.value))
    ensures site == ExampleBlog && b.url.Some? ==> ArticleUrl(site, b) == Some(ResolveExample(b.url.value))
  {
  }

  /** Every block a site other than the example extracts has a non-empty id, so its id can
      serve as a watermark. */
  lemma SiteIdsAreTruthy(site: Site, cands: seq<Candidate>)
    requires site != ExampleBlog
    ensures forall b :: b in ExtractBlocks(site, cands) ==> Truthy(BlockId(site, b))
  {
  }

  // ---------------------------------------------------------------- ordering

  /** Newest first, by the abstract date key. */
  ghost predicate NewestFirst(bs: seq<Block>, key: string -> int) {
    forall i, j :: 0 <= i < j < |bs| ==> key(bs[i].date) >= key(bs[j].date)
  }

  /** A block no older than any block of a newest-first list can go in front of it. */
  lemma NewestFirstCons(x: Block, rest: seq<Block>, key: string -> int)
    requires NewestFirst(rest, key)
    requires forall i :: 0 <= i < |rest| ==> key(rest[i].date) <= key(x.date)
    ensures NewestFirst([x] + rest, key)
  {
    var r := [x] + rest;
    forall i, j | 0 <= i < j < |r|
      ensures key(r[i].date) >= key(r[j].date)
    {
      assert r[j] == rest[j - 1];
      if i > 0 {
        assert r[i] == rest[i - 1];
      }
    }
  }

  /** Every block of a list that holds `b` and otherwise only blocks of `bs[1..]` is no newer
      than `bs[0]`, when `b` is older than `bs[0]` and `bs` is newest first. */
  lemma BelowHead(b: Block, bs: seq<Block>, rest: seq<Block>, key: string -> int)
    requires bs != [] && NewestFirst(bs, key) && key(b.date) < key(bs[0].date)
    requires multiset(rest) == multiset(bs[1..]) + multiset{b}
    ensures forall i :: 0 <= i < |rest| ==> key(rest[i].date) <= key(bs[0].date)
  {
    forall i | 0 <= i < |rest|
      ensures key(rest[i].date) <= key(bs[0].date)
    {
      assert rest[i] in multiset(rest);
      if rest[i] != b {
        assert rest[i] in multiset(bs[1..]);
        var j :| 0 <= j < |bs[1..]| && bs[1..][j] == rest[i];
        assert bs[j + 1] == rest[i];
      }
    }
  }

  /** Inserts `b` before the first block that is not newer than it (stable). */
  function InsertByDate(b: Block, bs: seq<Block>, key: string -> int): (r: seq<Block>)
    requires NewestFirst(bs, key)
    ensures NewestFirst(r, key)
    ensures multiset(r) == multiset(bs) + multiset{b}
    decreases |bs|
  {
    if bs == [] || key(bs[0].date) <= key(b.date) then
      NewestFirstCons(b, bs, key);
      [b] + bs
    else
      var rest := InsertByDate(b, bs[1..], key);
      BelowHead(b, bs, rest, key);
      NewestFirstCons(bs[0], rest, key);
      assert bs == [bs[0]] + bs[1..];
      [bs[0]] + rest
  }

  /** example.js `sortBlocks`: `blocks.sort((a, b) => date(b) - date(a))`, a stable sort
      newest first, with dates abstracted to integer keys. */
  function SortByDate(bs: seq<Block>, key: string -> int): (r: seq<Block>)
    ensures NewestFirst(r, key)
    ensures multiset(r) == multiset(bs)
    decreases |bs|
  {
    if bs == [] then []
    else
      assert bs == [bs[0]] + bs[1..];
      InsertByDate(bs[0], SortByDate(bs[1..], key), key)
  }

  /** Each site's `sortBlocks`: the base class's identity, except for the example. */
  function SortBlocks(site: Site, bs: seq<Block>, key: string -> int): (r: seq<Block>)
    ensures site != ExampleBlog ==> r == bs
    ensures multiset(r) == multiset(bs)
    ensures site == ExampleBlog ==> NewestFirst(r, key)
  {
    if site == ExampleBlog then SortByDate(bs, key) else bs
  }

  // ---------------------------------------------------------------- article text

  /** The paragraph test `text && text.length > 10` applied to a trimmed text. */
  predicate LongEnough(text: string) {
    text != "" && Utf16Length(text) > 10
  }

  /** One paragraph, trimmed, if it is long enough to keep. */
  function KeepParagraph(raw: string): Option<string> {
    var t := Trim(raw);
    if LongEnough(t) then Some(t) else None
  }

  /** The paragraphs sites 1, 2 and 3 keep: each trimmed paragraph whose length exceeds 10
      UTF-16 units, and nothing else, in document order. */
  function KeptParagraphs(raws: seq<string>): (r: seq<string>)
    ensures |r| <= |raws|
  {
    FilterMap(raws, KeepParagraph)
  }

  /** Every kept paragraph is a trimmed paragraph text, itself trimmed and longer than 10
      code units. */
  lemma KeptAreLong(raws: seq<string>)
    ensures var r := KeptParagraphs(raws);
            forall k :: 0 <= k < |r| ==>
              && Utf16Length(r[k]) > 10 && Trim(r[k]) == r[k]
              && exists i :: 0 <= i < |raws| && r[k] == Trim(raws[i])
  {
    var r := KeptParagraphs(raws);
    forall k | 0 <= k < |r|
      ensures Utf16Length(r[k]) > 10 && Trim(r[k]) == r[k]
      ensures exists i :: 0 <= i < |raws| && r[k] == Trim(raws[i])
    {
      KeptComesFrom(raws, k);
      var i :| 0 <= i < |raws| && KeepParagraph(raws[i]) == Some(r[k]);
      TrimIdempotent(raws[i]);
    }
  }

  /** Every kept text is what some paragraph yields. */
  lemma KeptComesFrom(raws: seq<string>, k: nat)
    requires k < |KeptParagraphs(raws)|
    ensures exists i :: 0 <= i < |raws| && KeepParagraph(raws[i]) == Some(KeptParagraphs(raws)[k])
  {
  }

  /** Every paragraph whose trimmed text is longer than 10 code units is kept. */
  lemma LongAreKept(raws: seq<string>)
    ensures forall i :: 0 <= i < |raws| && Utf16Length(Trim(raws[i])) > 10 ==>
              Trim(raws[i]) in KeptParagraphs(raws)
  {
    forall i | 0 <= i < |raws| && Utf16Length(Trim(raws[i])) > 10
      ensures Trim(raws[i]) in KeptParagraphs(raws)
    {
      assert KeepParagraph(raws[i]) == Some(Trim(raws[i]));
    }
  }

  /** The kept paragraphs joined by a blank line; empty exactly when no paragraph is long
      enough, and, being made of trimmed paragraphs, itself trimmed. */
  function ParagraphText(raws: seq<string>): (r: string)
    ensures r == "" <==> forall i :: 0 <= i < |raws| ==> Utf16Length(Trim(raws[i])) <= 10
    ensures Trimmed(r)
  {
    ParagraphTextTrimmed(raws);
    var kept := KeptParagraphs(raws);
    KeptAreLong(raws);
    LongAreKept(raws);
    assert kept != [] ==> kept[0] != "";
    Join(kept, "\n\n")
  }

  /** The kept paragraphs, being trimmed and non-empty, join to a trimmed text. */
  lemma ParagraphTextTrimmed(raws: seq<string>)
    ensures Trimmed(Join(KeptParagraphs(raws), "\n\n"))
  {
    forall raw | KeepParagraph(raw).Some?
      ensures NonEmptyTrimmed(KeepParagraph(raw).value)
    {
    }
    FilterMapAll(raws, KeepParagraph, NonEmptyTrimmed);
    JoinOfTrimmed(KeptParagraphs(raws), "\n\n");
  }

  /** A text with something in it and no white space at either end. */
  predicate NonEmptyTrimmed(t: string) {
    t != "" && Trimmed(t)
  }

  /** Parts whose first does not start, and whose last does not end, with white space join
      to a trimmed text, whatever the separator. */
  lemma JoinOfTrimmed(parts: seq<string>, sep: string)
    requires forall k :: 0 <= k < |parts| ==> NonEmptyTrimmed(parts[k])
    ensures Trimmed(Join(parts, sep))
  {
    var r := Join(parts, sep);
    if parts != [] {
      var first, last := parts[0], parts[|parts| - 1];
      JoinEndsWithLast(parts, sep);
      assert r[0] == first[0] by {
        assert r[..|first|] == first;
      }
      assert r[|r| - 1] == last[|last| - 1] by {
        assert r[|r| - |last|..] == last;
      }
    }
  }

  /** A single paragraph yields its trimmed text when that is longer than 10 UTF-16 units,
      and nothing otherwise. */
  lemma ParagraphTextSingle(raw: string)
    ensures ParagraphText([raw]) == if LongEnough(Trim(raw)) then Trim(raw) else ""
  {
    FilterMapSingle(raw, KeepParagraph);
  }

  /** The paragraph text is empty exactly when no paragraph is kept. */
  lemma NothingKeptIsEmpty(raws: seq<string>)
    ensures ParagraphText(raws) == "" <==> KeptParagraphs(raws) == []
  {
    var kept := KeptParagraphs(raws);
    if kept != [] {
      KeptAreLong(raws);
      assert StartsWith(ParagraphText(raws), kept[0]) && kept[0] != "";
    }
  }

  /** Paragraph texts of consecutive runs of paragraphs join with one blank line between
      when both have a long enough paragraph; an empty side contributes nothing. */
  lemma ParagraphTextAppend(a: seq<string>, b: seq<string>)
    ensures ParagraphText(a + b)
            == if ParagraphText(a) == "" then ParagraphText(b)
               else if ParagraphText(b) == "" then ParagraphText(a)
               else ParagraphText(a) + "\n\n" + ParagraphText(b)
  {
    var ka, kb := KeptParagraphs(a), KeptParagraphs(b);
    FilterMapAppend(a, b, KeepParagraph);
    NothingKeptIsEmpty(a);
    NothingKeptIsEmpty(b);
    if ka == [] {
      assert ka + kb == kb;
    } else if kb == [] {
      assert ka + kb == ka;
    } else {
      JoinAppend(ka, kb, "\n\n");
    }
  }

  /** Each site's `extractContent`: sites 1, 2 and 3 join the long paragraphs, the example
      and site 5 trim the text of one content element. The text is always trimmed; it is
      empty exactly when the content element holds only white space, or when no paragraph
      is long enough. */
  function ExtractContent(site: Site, page: Page): (text: string)
    ensures Trimmed(text)
    ensures site in {ExampleBlog, EmConsulte} ==>
              (text == "" <==> forall i :: 0 <= i < |page.mainText| ==> IsSpace(page.mainText[i]))
    ensures site in {PkbNews, PkbBlog, AskAPatient} ==>
              (text == "" <==> forall i :: 0 <= i < |page.paragraphs| ==>
                                 Utf16Length(Trim(page.paragraphs[i])) <= 10)
  {
    TrimAllSpace(page.mainText);
    match site
    case ExampleBlog => Trim(page.mainText)
    case EmConsulte => Trim(page.mainText)
    case _ => ParagraphText(page.paragraphs)
  }
}
