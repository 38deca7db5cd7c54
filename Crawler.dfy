/**
 * The crawl, `JustdialSeleniumScraper.scrape_search`: pages 1 to `maxPages`
 * in turn, each either skipped (slow render), ended on (no listings or an
 * error), or scanned block by block into `results`. The browser is replaced
 * by a `Site`: what each address shows.
 */
module Crawler {
  import opened Wrappers
  import opened Text
  import opened Phone
  import opened SearchUrl
  import opened Gstin
  import opened Records
  import Sequences

  /** What opening one search page gives. */
  datatype PageOutcome =
    | PageRaised                       // navigation, scrolling or the block lookup raised
    | RenderTimeout                    // no `h3` appeared within the wait
    | Rendered(blocks: seq<BlockOutcome>)  // the result blocks found, [] when there are no listings

  /** What the site serves: search pages and detail pages, by address. */
  datatype Site = Site(pages: map<string, PageOutcome>, details: map<string, DetailDoc>)

  /** A search page the site does not serve shows no listings. */
  function PageAt(site: Site, url: string): PageOutcome
  {
    if url in site.pages then site.pages[url] else Rendered([])
  }

  /** What page `page` of the request shows. */
  function Outcome(req: Request, site: Site, page: nat): PageOutcome
  {
    PageAt(site, PageUrl(req.location, req.searchTerm, page))
  }

  /** After this page the crawl goes on to the next one (if any is left). */
  predicate Proceeds(o: PageOutcome)
  {
    o.RenderTimeout? || (o.Rendered? && o.blocks != [])
  }

  /** The records a page adds. */
  function Contribution(req: Request, site: Site, o: PageOutcome): seq<Record>
  {
    if o.Rendered? then PageRecords(req, site.details, o.blocks) else []
  }

  /** The records gathered from page `page` on. */
  function CrawlFrom(req: Request, site: Site, page: nat): seq<Record>
    decreases req.maxPages - page
  {
    if page > req.maxPages then []
    else
      var o := Outcome(req, site, page);
      if !Proceeds(o) then [] else Contribution(req, site, o) + CrawlFrom(req, site, page + 1)
  }

  /** The records a whole crawl gathers. */
  function Crawl(req: Request, site: Site): seq<Record>
  {
    CrawlFrom(req, site, 1)
  }

  /** The pages fetched from page `page` on, in the order they are fetched. */
  function VisitedFrom(req: Request, site: Site, page: nat): seq<nat>
    decreases req.maxPages - page
  {
    if page > req.maxPages then []
    else if !Proceeds(Outcome(req, site, page)) then [page]
    else [page] + VisitedFrom(req, site, page + 1)
  }

  /** The records of the given pages, page after page. */
  function Gathered(req: Request, site: Site, pages: seq<nat>): seq<Record>
  {
    if pages == [] then []
    else Contribution(req, site, Outcome(req, site, pages[0])) + Gathered(req, site, pages[1..])
  }

  /**
   * The pages fetched are consecutive from `page`, never beyond `maxPages`;
   * every one but the last leads on (a slow page or one with listings), and
   * the last one, unless it is page `maxPages`, ends the crawl (no listings or
   * an error).
   */
  lemma {:induction false} VisitedShape(req: Request, site: Site, page: nat)
    ensures var v := VisitedFrom(req, site, page);
      (v == [] <==> page > req.maxPages)
      && (forall k :: 0 <= k < |v| ==> v[k] == page + k && v[k] <= req.maxPages)
      && (forall k :: 0 <= k < |v| - 1 ==> Proceeds(Outcome(req, site, v[k])))
      && (v != [] && v[|v| - 1] < req.maxPages ==> !Proceeds(Outcome(req, site, v[|v| - 1])))
    decreases req.maxPages - page
  {
    if page <= req.maxPages && Proceeds(Outcome(req, site, page)) {
      VisitedShape(req, site, page + 1);
    }
  }

  /** The crawl's records are those of the pages it visits, in page order and block order. */
  lemma {:induction false} CrawlIsGathered(req: Request, site: Site, page: nat)
    ensures CrawlFrom(req, site, page) == Gathered(req, site, VisitedFrom(req, site, page))
    decreases req.maxPages - page
  {
    var v := VisitedFrom(req, site, page);
    if page <= req.maxPages {
      var o := Outcome(req, site, page);
      if Proceeds(o) {
        CrawlIsGathered(req, site, page + 1);
        assert v[1..] == VisitedFrom(req, site, page + 1);
      } else {
        assert v == [page];
        assert [page][1..] == [];
      }
    }
  }

  /** The pages `from`, `from + 1`, ..., `to - 1`. */
  function Range(from: nat, to: nat): (r: seq<nat>)
    ensures |r| == if from < to then to - from else 0
    decreases if from < to then to - from else 0
  {
    if from >= to then [] else [from] + Range(from + 1, to)
  }

  /** `Range(from, to)` counts up by one from `from`. */
  lemma {:induction false} RangeElements(from: nat, to: nat)
    ensures forall k :: 0 <= k < |Range(from, to)| ==> Range(from, to)[k] == from + k
    decreases if from < to then to - from else 0
  {
    if from < to {
      RangeElements(from + 1, to);
      assert Range(from, to) == [from] + Range(from + 1, to);
    }
  }

  /** A slow page adds nothing and the crawl goes on to the next page. */
  lemma TimeoutSkipsPage(req: Request, site: Site, page: nat)
    requires 1 <= page <= req.maxPages && Outcome(req, site, page) == RenderTimeout
    ensures CrawlFrom(req, site, page) == CrawlFrom(req, site, page + 1)
    ensures VisitedFrom(req, site, page) == [page] + VisitedFrom(req, site, page + 1)
  {
  }

  /** A page without listings, or one that raised, ends the crawl: no later page is fetched. */
  lemma StopPageEndsCrawl(req: Request, site: Site, page: nat)
    requires 1 <= page <= req.maxPages && !Proceeds(Outcome(req, site, page))
    ensures CrawlFrom(req, site, page) == []
    ensures VisitedFrom(req, site, page) == [page]
  {
  }

  /**
   * When the pages before `stop` all lead on, the crawl first gathers their
   * records and then whatever it gathers from `stop` on: records gathered
   * earlier are never dropped.
   */
  lemma {:induction false} EarlierRecordsKept(req: Request, site: Site, page: nat, stop: nat)
    requires page <= stop <= req.maxPages + 1
    requires forall q :: page <= q < stop ==> Proceeds(Outcome(req, site, q))
    ensures CrawlFrom(req, site, page) == Gathered(req, site, Range(page, stop)) + CrawlFrom(req, site, stop)
    decreases stop - page
  {
    if page < stop {
      EarlierRecordsKept(req, site, page + 1, stop);
      var c := Contribution(req, site, Outcome(req, site, page));
      var rest := Range(page + 1, stop);
      assert Range(page, stop) == [page] + rest;
      assert ([page] + rest)[1..] == rest;
      assert Gathered(req, site, Range(page, stop)) == c + Gathered(req, site, rest);
      assert CrawlFrom(req, site, page) == c + CrawlFrom(req, site, page + 1);
      Sequences.AppendAssoc(c, Gathered(req, site, rest), CrawlFrom(req, site, stop));
    } else {
      assert Range(page, stop) == [];
    }
  }

  /**
   * A crawl that reaches a page without listings, or one that raised, returns
   * exactly the records of the pages before it.
   */
  lemma StopKeepsEarlierRecords(req: Request, site: Site, stop: nat)
    requires 1 <= stop <= req.maxPages
    requires forall q :: 1 <= q < stop ==> Proceeds(Outcome(req, site, q))
    requires !Proceeds(Outcome(req, site, stop))
    ensures Crawl(req, site) == Gathered(req, site, Range(1, stop))
    ensures VisitedFrom(req, site, stop) == [stop]
  {
    EarlierRecordsKept(req, site, 1, stop);
  }

  /** Every record the crawl gathers is well formed. */
  lemma {:induction false} CrawlWellFormed(req: Request, site: Site, page: nat)
    ensures forall r :: r in CrawlFrom(req, site, page) ==> WellFormed(req, r)
    decreases req.maxPages - page
  {
    if page <= req.maxPages {
      var o := Outcome(req, site, page);
      if Proceeds(o) {
        CrawlWellFormed(req, site, page + 1);
        if o.Rendered? {
          PageRecordsWellFormed(req, site.details, o.blocks);
        }
      }
    }
  }

  /** The scraper object: `results` is the list `scrape_search` fills. */
  class Scraper {
    var results: seq<Record>

    constructor ()
      ensures results == []
    {
      results := [];
    }

    /**
     * The body of the loop over one page's result blocks: the block's record
     * is appended when the block is kept; the result says whether it was.
     */
    method ScanBlock(req: Request, details: map<string, DetailDoc>, block: BlockOutcome) returns (kept: bool)
      modifies this
      ensures results == old(results) + PageRecords(req, details, [block])
      ensures kept <==> |results| == |old(results)| + 1
    {
      var record := BuildRecord(req, details, block);
      assert [block][1..] == [];
      if record.Some? {
        results := results + [record.value];
      }
      kept := record.Some?;
    }

    /**
     * The loop over the result blocks of one page: each kept block appends
     * its record; the count of appended records is returned.
     */
    method ScanBlocks(req: Request, details: map<string, DetailDoc>, blocks: seq<BlockOutcome>) returns (added: int)
      modifies this
      ensures results == old(results) + PageRecords(req, details, blocks)
      ensures added == |results| - |old(results)|
    {
      ghost var start := results;
      var idx := 0;
      added := 0;
      while idx < |blocks|
        invariant 0 <= idx <= |blocks|
        invariant results == start + PageRecords(req, details, blocks[..idx])
        invariant added == |results| - |start|
      {
        OneMoreBlock(start, req, details, blocks, idx);
        var kept := ScanBlock(req, details, blocks[idx]);
        if kept {
          added := added + 1;
        }
        idx := idx + 1;
      }
      assert blocks[..|blocks|] == blocks;
    }

    /**
     * `scrape_search(location, search_term, max_pages, include_gstin)`.
     * `setupSucceeds` is whether the browser could be started. The result is
     * the number of records appended, which is the length of `results`;
     * `visited` lists the pages opened, in the order they are opened.
     */
    method ScrapeSearch(location: string, searchTerm: string, maxPages: int, includeGstin: bool,
                        setupSucceeds: bool, site: Site) returns (total: int, ghost visited: seq<nat>)
      modifies this
      ensures !setupSucceeds ==> results == [] && total == 0
      ensures setupSucceeds ==> results == Crawl(Request(location, searchTerm, maxPages, includeGstin), site)
      ensures total == |results|
      ensures !setupSucceeds ==> visited == []
      ensures setupSucceeds ==> visited == VisitedFrom(Request(location, searchTerm, maxPages, includeGstin), site, 1)
    {
      var req := Request(location, searchTerm, maxPages, includeGstin);
      results := [];
      visited := [];
      if !setupSucceeds {
        return 0, visited;
      }
      var searchSlug := Slug(searchTerm);
      var locationSlug := Slug(location);
      var totalExtracted := 0;
      var page := 1;
      while page <= maxPages
        invariant page >= 1
        invariant results + CrawlFrom(req, site, page) == Crawl(req, site)
        invariant totalExtracted == |results|
        invariant visited + VisitedFrom(req, site, page) == VisitedFrom(req, site, 1)
        decreases maxPages - page
      {
        var url := Host + locationSlug + "/" + searchSlug;
        if page != 1 {
          url := url + "/page-" + DecimalString(page);
        }
        assert url == PageUrl(location, searchTerm, page);
        var outcome := PageAt(site, url);
        TraceStep(visited, req, site, page);
        visited := visited + [page];
        PageStep(req, site, page);
        if outcome.PageRaised? {
          break;
        }
        if outcome.RenderTimeout? {
          page := page + 1;
          continue;
        }
        var blocks := outcome.blocks;
        if blocks == [] {
          break;
        }
        ghost var before := results;
        var added := ScanBlocks(req, site.details, blocks);
        totalExtracted := totalExtracted + added;
        ghost var records := PageRecords(req, site.details, blocks);
        ghost var later := CrawlFrom(req, site, page + 1);
        assert results == before + records;
        assert Outcome(req, site, page) == outcome;
        assert CrawlFrom(req, site, page) == records + later;
        Sequences.AppendAssoc(before, records, later);
        page := page + 1;
      }
      total := totalExtracted;
    }
  }

  /** One step of the crawl: page `page` either ends it or adds its records before those of the next page. */
  lemma PageStep(req: Request, site: Site, page: nat)
    requires page <= req.maxPages
    ensures !Proceeds(Outcome(req, site, page)) ==> CrawlFrom(req, site, page) == []
    ensures Outcome(req, site, page).RenderTimeout? ==> CrawlFrom(req, site, page) == CrawlFrom(req, site, page + 1)
    ensures Outcome(req, site, page).Rendered? && Proceeds(Outcome(req, site, page)) ==>
      CrawlFrom(req, site, page) == PageRecords(req, site.details, Outcome(req, site, page).blocks) + CrawlFrom(req, site, page + 1)
  {
  }

  /** Opening page `page` extends the trace of pages opened so far: by the last page when it ends the crawl. */
  lemma TraceStep(visited: seq<nat>, req: Request, site: Site, page: nat)
    requires page <= req.maxPages
    requires visited + VisitedFrom(req, site, page) == VisitedFrom(req, site, 1)
    ensures !Proceeds(Outcome(req, site, page)) ==> visited + [page] == VisitedFrom(req, site, 1)
    ensures Proceeds(Outcome(req, site, page)) ==>
      (visited + [page]) + VisitedFrom(req, site, page + 1) == VisitedFrom(req, site, 1)
  {
    if Proceeds(Outcome(req, site, page)) {
      Sequences.AppendAssoc(visited, [page], VisitedFrom(req, site, page + 1));
    }
  }

  /** The records of one more block: those of the blocks before it, then those of the block. */
  lemma OneMoreBlock(prefix: seq<Record>, req: Request, details: map<string, DetailDoc>, blocks: seq<BlockOutcome>, idx: nat)
    requires idx < |blocks|
    ensures prefix + PageRecords(req, details, blocks[..idx + 1])
         == prefix + PageRecords(req, details, blocks[..idx]) + PageRecords(req, details, [blocks[idx]])
  {
    assert blocks[..idx + 1] == blocks[..idx] + [blocks[idx]];
    PageRecordsAppend(req, details, blocks[..idx], [blocks[idx]]);
    Sequences.AppendAssoc(prefix, PageRecords(req, details, blocks[..idx]), PageRecords(req, details, [blocks[idx]]));
  }
}
