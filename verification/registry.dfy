/** The scheduler's dispatch of src/index.js: a registry of scraper factories, each with a
    cron schedule and an `enabled` flag, and the two functions that run them. */
module Registry {
  import opened Js
  import opened Seqs
  import opened Blocks
  import opened StateStore
  import opened Scrape

  /** One registry entry; `scraper` is what the entry's factory builds. */
  datatype Entry = Entry(scraper: Scraper, schedule: string, enabled: bool)

  /** What `runScraper` resolves to: `run()`'s `{processed, saved}`, or zeros and the error. */
  datatype ScraperResult = ScraperResult(processed: nat, saved: nat, error: Option<RunError>)

  /** `scraperRegistry` as shipped: every entry is commented out. */
  const ShippedRegistry: seq<Entry> := []

  /** `runScraper(factory)`: never throws. A completed run's counters and state file pass
      through; a run that throws turns into `{processed: 0, saved: 0, error}` and leaves the
      state file as it found it. */
  function RunScraper(sc: Scraper, f: StateFile, w: World): (r: (ScraperResult, StateFile))
    ensures r.0.error.Some? <==> Run(sc, f, w).Failed?
    ensures r.0.error.Some? ==> r.0.processed == 0 && r.0.saved == 0 && r.1 == f
    ensures r.0.error.None? ==>
              r.0.processed == Run(sc, f, w).processed && r.0.saved == Run(sc, f, w).saved
              && r.1 == Run(sc, f, w).file
    ensures r.0.saved <= r.0.processed
  {
    match Run(sc, f, w)
    case Completed(processed, saved, _, _, file) => (ScraperResult(processed, saved, None), file)
    case Failed(e) => (ScraperResult(0, 0, Some(e)), f)
  }

  /** The scrapers of the enabled entries, in registry order. */
  function EnabledScrapers(reg: seq<Entry>): seq<Scraper> {
    FilterMap(reg, (e: Entry) => if e.enabled then Some(e.scraper) else None)
  }

  /** The enabled scrapers of a non-empty registry: its head's, if enabled, then its tail's. */
  lemma EnabledScrapersCons(reg: seq<Entry>)
    requires reg != []
    ensures EnabledScrapers(reg)
            == (if reg[0].enabled then [reg[0].scraper] else []) + EnabledScrapers(reg[1..])
  {
  }

  /** Each result keeps `saved <= processed`, and an error result reports zeros. */
  predicate ResultsSound(results: seq<ScraperResult>) {
    forall k :: 0 <= k < |results| ==>
      && results[k].saved <= results[k].processed
      && (results[k].error.Some? ==> results[k].processed == 0 && results[k].saved == 0)
  }

  /** What a sweep leaves: the scrapers run, their results and the final state file. */
  datatype Sweep = Sweep(ran: seq<Scraper>, results: seq<ScraperResult>, file: StateFile)

  /** `runAllScrapers()`: runs the enabled entries one after another, each against the state
      file the previous one left, and collects one result per run. Exactly the enabled
      scrapers run, in registry order; a failing scraper contributes a zero result and does not
      stop the sweep. */
  function RunAll(reg: seq<Entry>, f: StateFile, w: World): (s: Sweep)
    ensures s.ran == EnabledScrapers(reg)
    ensures |s.results| == |s.ran|
    ensures ResultsSound(s.results)
    ensures s.ran == [] ==> s.results == [] && s.file == f
    decreases |reg|
  {
    if reg == [] then Sweep([], [], f)
    else
      EnabledScrapersCons(reg);
      if !reg[0].enabled then RunAll(reg[1..], f, w)
      else
        var step := RunScraper(reg[0].scraper, f, w);
        var rest := RunAll(reg[1..], step.1, w);
        assert ([step.0] + rest.results)[1..] == rest.results;
        Sweep([reg[0].scraper] + rest.ran, [step.0] + rest.results, rest.file)
  }

  /** Running two registries back to back is running their concatenation: the sweep is
      sequential, and its results come out in registry order. */
  lemma {:induction false} RunAllAppend(a: seq<Entry>, b: seq<Entry>, f: StateFile, w: World)
    ensures var first := RunAll(a, f, w);
            var second := RunAll(b, first.file, w);
            RunAll(a + b, f, w) == Sweep(first.ran + second.ran, first.results + second.results, second.file)
    decreases |a|
  {
    if a == [] {
      assert a + b == b;
    } else {
      assert (a + b)[0] == a[0];
      assert (a + b)[1..] == a[1..] + b;
      if a[0].enabled {
        var step := RunScraper(a[0].scraper, f, w);
        var restA := RunAll(a[1..], step.1, w);
        var second := RunAll(b, restA.file, w);
        var restAB := RunAll(a[1..] + b, step.1, w);
        RunAllAppend(a[1..], b, step.1, w);
        assert restAB == Sweep(restA.ran + second.ran, restA.results + second.results, second.file);
        assert RunAll(a, f, w) == Sweep([a[0].scraper] + restA.ran, [step.0] + restA.results, restA.file);
        assert RunAll(a + b, f, w) == Sweep([a[0].scraper] + restAB.ran, [step.0] + restAB.results, restAB.file);
        ConsAppend(a[0].scraper, restA.ran, second.ran);
        ConsAppend(step.0, restA.results, second.results);
      } else {
        RunAllAppend(a[1..], b, f, w);
      }
    }
  }

  /** A one-entry registry: an enabled entry runs its own scraper against the file and
      contributes that run's result and file; a disabled one contributes nothing. With
      `RunAllAppend` this fixes every result of a sweep. */
  lemma RunAllSingle(e: Entry, f: StateFile, w: World)
    ensures var r := RunScraper(e.scraper, f, w);
            RunAll([e], f, w) == if e.enabled then Sweep([e.scraper], [r.0], r.1) else Sweep([], [], f)
  {
    assert [e][1..] == [];
  }

  /** A disabled entry is skipped without a trace, wherever it sits. */
  lemma DisabledEntryIsSkipped(a: seq<Entry>, e: Entry, b: seq<Entry>, f: StateFile, w: World)
    requires !e.enabled
    ensures RunAll(a + [e] + b, f, w) == RunAll(a + b, f, w)
  {
    RunAllAppend(a + [e], b, f, w);
    RunAllAppend(a, [e], f, w);
    RunAllAppend(a, b, f, w);
    var first := RunAll(a, f, w);
    assert RunAll([e], first.file, w) == Sweep([], [], first.file) by {
      assert [e][1..] == [];
    }
    assert first.ran + [] == first.ran;
    assert first.results + [] == first.results;
  }

  /** With the registry as shipped, a sweep runs nothing and returns `[]`. */
  lemma ShippedSweepIsEmpty(f: StateFile, w: World)
    ensures RunAll(ShippedRegistry, f, w) == Sweep([], [], f)
  {
  }
}
