/**
 * A whole run as the Streamlit handler performs it: crawl, then drop
 * duplicate phones before showing the table.
 */
module Scenario {
  import opened Wrappers
  import opened Text
  import opened Phone
  import opened SearchUrl
  import opened Gstin
  import opened Records
  import opened Crawler
  import opened Dedup

  /** The records shown after a crawl: the crawl's records without duplicate phones. */
  function UniqueBusinesses(req: Request, site: Site): seq<Record>
  {
    DropDuplicatePhones(Crawl(req, site))
  }

  /**
   * A crawl of up to three pages where page 1 holds three listings, the
   * third repeating the first one's phone, and page 2 holds none: pages 1
   * and 2 are fetched and page 3 is not, three records are gathered, and two
   * remain once duplicates are dropped.
   */
  lemma TwoPageCrawl(location: string, searchTerm: string, details: map<string, DetailDoc>,
                     a: BlockOutcome, b: BlockOutcome, c: BlockOutcome)
    requires a.Entry? && b.Entry? && c.Entry?
    requires Strip(a.title) != [] && Strip(b.title) != [] && Strip(c.title) != []
    requires a.phone == c.phone
    requires CleanPhone(Some(RawPhone(a.phone))) != CleanPhone(Some(RawPhone(b.phone)))
    ensures var req := Request(location, searchTerm, 3, false);
      var site := Site(map[PageUrl(location, searchTerm, 1) := Rendered([a, b, c]),
                           PageUrl(location, searchTerm, 2) := Rendered([])], details);
      VisitedFrom(req, site, 1) == [1, 2]
      && |Crawl(req, site)| == 3
      && UniqueBusinesses(req, site) == [Crawl(req, site)[0], Crawl(req, site)[1]]
  {
    var req := Request(location, searchTerm, 3, false);
    var u1, u2 := PageUrl(location, searchTerm, 1), PageUrl(location, searchTerm, 2);
    var site := Site(map[u1 := Rendered([a, b, c]), u2 := Rendered([])], details);
    assert u1 != u2 by {
      if u1 == u2 {
        PageUrlInjective(location, searchTerm, 1, 2);
      }
    }
    assert Outcome(req, site, 1) == Rendered([a, b, c]);
    assert Outcome(req, site, 2) == Rendered([]);
    FirstPageOnly(req, site, [a, b, c]);
    BuildRecordSpec(req, details, a);
    BuildRecordSpec(req, details, b);
    BuildRecordSpec(req, details, c);
    ThreeKeptBlocks(req, details, a, b, c);
    var ra, rb, rc := BuildRecord(req, details, a).value, BuildRecord(req, details, b).value, BuildRecord(req, details, c).value;
    assert Crawl(req, site) == [ra, rb, rc];
    DedupExample(ra, rb, rc);
  }

  /**
   * When page 1 has listings and page 2 has none, the crawl visits those
   * two pages and returns page 1's records.
   */
  lemma FirstPageOnly(req: Request, site: Site, blocks: seq<BlockOutcome>)
    requires 2 <= req.maxPages
    requires blocks != [] && Outcome(req, site, 1) == Rendered(blocks)
    requires Outcome(req, site, 2) == Rendered([])
    ensures VisitedFrom(req, site, 1) == [1, 2]
    ensures Crawl(req, site) == PageRecords(req, site.details, blocks)
  {
    StopPageEndsCrawl(req, site, 2);
    assert VisitedFrom(req, site, 1) == [1] + [2];
    assert Crawl(req, site) == PageRecords(req, site.details, blocks) + [];
  }

  /** Three kept blocks give their three records, in order. */
  lemma ThreeKeptBlocks(req: Request, details: map<string, DetailDoc>, a: BlockOutcome, b: BlockOutcome, c: BlockOutcome)
    requires BuildRecord(req, details, a).Some? && BuildRecord(req, details, b).Some? && BuildRecord(req, details, c).Some?
    ensures PageRecords(req, details, [a, b, c])
         == [BuildRecord(req, details, a).value, BuildRecord(req, details, b).value, BuildRecord(req, details, c).value]
  {
    ThreeBlocks(req, details, a, b, c);
    KeptAlone(req, details, a);
    KeptAlone(req, details, b);
    KeptAlone(req, details, c);
  }

  /** The records of three blocks are those of each block, in turn. */
  lemma ThreeBlocks(req: Request, details: map<string, DetailDoc>, a: BlockOutcome, b: BlockOutcome, c: BlockOutcome)
    ensures PageRecords(req, details, [a, b, c])
         == PageRecords(req, details, [a]) + PageRecords(req, details, [b]) + PageRecords(req, details, [c])
  {
    assert [a, b, c] == [a] + ([b] + [c]);
    PageRecordsAppend(req, details, [b], [c]);
    PageRecordsAppend(req, details, [a], [b] + [c]);
  }

  /** A kept block on its own gives its record alone. */
  lemma KeptAlone(req: Request, details: map<string, DetailDoc>, b: BlockOutcome)
    requires BuildRecord(req, details, b).Some?
    ensures PageRecords(req, details, [b]) == [BuildRecord(req, details, b).value]
  {
    KeptBlock(req, details, b, []);
    assert [b] + [] == [b];
  }
}
