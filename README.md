# Justdial scraper core, modelled in Dafny

The model covers the deterministic logic inside `JustdialSeleniumScraper` in `main.py`.
That scraper walks the result pages of a Justdial search, turns each result block into a
business record, optionally opens the block's detail page to find a GSTIN (the Indian tax
identifier), and lastly removes records whose phone number repeats. The model has these parts:

- `Phone`: `clean_phone`, which keeps the digits and commas of a phone or gives the sentinel `"N/A"`.
- `Patterns`: the two regular expressions, each written out as a first-match scanner with `\b` anchors. One is the GSTIN pattern searched in a detail page's source; the other is the bare ten-digit phone fallback.
- `Gstin`: `extract_gstin`, a fallback chain over the outcome of opening a detail page (`DetailDoc`).
- `SearchUrl`: the slugs (spaces to `-`, lower case) and the address of each result page.
- `Records`: how one result block becomes a record, or is skipped.
- `Crawler`: the class `Scraper` with its field `results`, the page loop of `scrape_search` (with its `continue` and `break`), and the block loop inside it. The loops are proved against the functions `CrawlFrom`/`Crawl` and `PageRecords`.
- `Dedup`: `drop_duplicates(subset=['Phone Number'], keep='first')` as a recursive scan with a seen-set, checked against an index-based reference (`FirstOccurrencesFrom`).
- `Scenario`: a whole run end to end.
- `Text`, `Sequences`, `Wrappers`: `str.strip()` (with Python's exact whitespace set), substring tests, `str(n)`, subsequences and `Option`.

The browser is replaced by a `Site` value. It maps each page address to what opening that page
gives: it raised, it timed out waiting for `h3`, or it rendered a list of blocks. It maps each
detail address to a `DetailDoc`. An address the site does not list shows no listings (search
page) or fails to load (detail page). Each element lookup inside a block is likewise replaced by
its outcome: the phone span, the address span and the title's enclosing anchor. Whether the
browser could be started is the parameter `setupSucceeds`.

Three behaviours of the code that the properties below depend on:

- A slow-rendering page is skipped and the crawl goes on (`RenderTimeout` leads to `continue`, lines 105-112).
- A field is not always a non-empty value or the sentinel. An address span or structural GSTIN whose text is blank is stored as `""`, because the code stores `.text.strip()` as it is (lines 64, 156). `Records.BlankAddressStored` and `Gstin.StructuralMayBeEmpty` state this.
- The fallback chains do not move on when a strategy yields an empty value. A phone span with blank text gives `""`, which `clean_phone` turns into `"N/A"`; the ten-digit search is not tried (lines 140-147). A blank structural GSTIN is returned without scanning the page source (line 64).

## Model

| member | source | states |
|---|---|---|
| Text.StripEnds | main.py:128 | the result of `strip()` neither starts nor ends with a whitespace character |
| Text.StripTrims | main.py:128 | the input is the stripped result with whitespace-only text on both sides |
| Text.StripIdempotent | main.py:128 | stripping twice is stripping once |
| Text.StripAllSpace | main.py:156 | a whitespace-only text strips to the empty string |
| Text.LeadingSpaces | main.py:128 | counts exactly the leading whitespace: all of it is whitespace, and the next character is not |
| Text.TrailingSpaces | main.py:128 | counts exactly the trailing whitespace: all of it is whitespace, and the character before it is not |
| Text.ContainsIff | main.py:167 | the substring test `'BZDET' in detail_url` holds exactly when the marker occurs at some position |
| Text.DecimalString | main.py:96 | `str(page)` is a non-empty run of decimal digits without a leading zero |
| Text.DecimalRoundTrip | main.py:96 | reading back the digits of `str(n)` gives `n` |
| Text.DecimalInjective | main.py:96 | different page numbers have different decimal strings |
| Phone.KeepPhoneCharsSound | main.py:42 | `re.sub(r'[^\d,]', '', s)` keeps only digits and commas, in their original order (a subsequence) |
| Phone.KeepPhoneCharsComplete | main.py:42 | every digit and comma of the input is kept, as often as it occurs, and nothing else is |
| Phone.KeepPhoneCharsFixes | main.py:42 | a text made only of digits and commas is left unchanged |
| Phone.CleanPhoneShape | main.py:39-44 | `clean_phone` gives `"N/A"` or a non-empty run of digits and commas; a missing or empty phone gives `"N/A"` |
| Phone.CleanPhoneContents | main.py:41-43 | `"N/A"` exactly when the phone holds no digit or comma; otherwise its digits and commas in order, each as often as in the input |
| Phone.CleanPhoneIdempotent | main.py:41-44 | cleaning a cleaned phone changes nothing (`"N/A"` cleans to `"N/A"`) |
| Phone.CleanPhoneFixes | main.py:41-44 | the cleaned phones are exactly the fixed points of `clean_phone` |
| Patterns.FirstMatchFrom | main.py:70 | a reported start is at or after the scan position and the whole anchored pattern matches there |
| Patterns.FirstMatchFromLeftmost | main.py:70 | no match lies between the scan position and the reported start; none from there on when nothing is reported |
| Patterns.FirstMatch | main.py:70 | `re.search` reports a start only where the pattern matches |
| Patterns.FirstMatchLeftmost | main.py:70 | `re.search` finds something exactly when some position matches, and it finds the leftmost match |
| Patterns.SearchGroup | main.py:70-72 | `.group()` is as wide as the pattern and has its character classes position by position |
| Patterns.SearchGroupSpec | main.py:145-147 | a group exists exactly when some position matches, and it is the text of the leftmost match |
| Patterns.LeftmostMatchReported | main.py:70-72 | a match with no match to its left is the one `re.search` reports |
| Patterns.GstinMatchHasZ | main.py:70-72 | every reported GSTIN has 15 characters and a `Z` at index 13 |
| Patterns.GstinAccepted | main.py:70-72 | `"07AAACB1234C1Z5"` is found whole |
| Patterns.GstinRequiresZ | main.py:70 | a 15-character text without `Z` at index 13 is not found |
| Patterns.GstinInText | main.py:70-72 | the identifier is found between non-word characters inside longer text |
| Patterns.GstinNeedsBoundary | main.py:70 | a word character glued to the front defeats the leading `\b` |
| Patterns.TenDigitsInText | main.py:145-147 | a bare ten-digit run in a block's text is found |
| Patterns.TenDigitsNotInsideLongerRun | main.py:145 | ten digits inside a longer run of digits are not a match |
| Gstin.ExtractGstinScan | main.py:68-74 | without a structural value the page source is scanned: `"N/A"` exactly when nothing matches, else the leftmost GSTIN-shaped match |
| Gstin.ExtractGstinOutcomes | main.py:46-76 | every result is `"N/A"`, the stripped structural value, or a GSTIN-shaped text found in the page source |
| Gstin.StructuralPreferred | main.py:58-66 | the structural value wins even when the page source also holds a GSTIN |
| Gstin.BothFail | main.py:58-76 | no structural value and no match, an unreadable page source, or a failed load each give `"N/A"` |
| Gstin.StructuralMayBeEmpty | main.py:64 | a blank structural value is returned as `""`, not as the sentinel |
| SearchUrl.SlugChars | main.py:86-87 | a slug has the input's length, maps each space to `-` and each upper-case letter to lower case, and keeps every other character |
| SearchUrl.SlugIs | main.py:86-87 | a text whose characters are the slugged characters of the input is the slug |
| SearchUrl.SlugIdempotent | main.py:86-87 | slugging a slug changes nothing |
| SearchUrl.ReplaceSpacesClears | main.py:86-87 | `replace(' ', '-')` keeps the length, leaves no space, keeps every other character in place, and changes nothing when applied again |
| SearchUrl.LowerClears | main.py:86-87 | `lower()` keeps the length, leaves no ASCII capital, fixes every other character, leaves a text unchanged exactly when it has no capital, and changes nothing when applied again |
| SearchUrl.PageUrl | main.py:93-96 | every page address extends the search path and equals it exactly for page 1 |
| SearchUrl.PageUrlInjective | main.py:93-96 | different pages of one search have different addresses |
| SearchUrl.NewDelhiTimber | main.py:86-96 | `("New Delhi", "Timber Suppliers")` gives `.../new-delhi/timber-suppliers` and `.../new-delhi/timber-suppliers/page-2` |
| Records.RawPhoneChain | main.py:137-149 | the phone before cleaning: the stripped span text, else the leftmost bare ten-digit run, else `"N/A"`; `"N/A"` when the lookup raised |
| Records.BuildRecordSpec | main.py:127-185 | a block is kept exactly when its stripped title is non-empty; the record holds that title, `clean_phone` of the raw phone, the address, the call's location and search term, and a GSTIN other than `"N/A"` only for an enriched detail link |
| Records.PageRecords | main.py:126-188 | a page never yields more records than it has blocks |
| Records.PageRecordsWellFormed | main.py:126-185 | every stored record has a non-empty stripped name, a cleaned phone, the call's location and search term, and `"N/A"` as its GSTIN when enrichment is off |
| Records.PageRecordsAppend | main.py:126-188 | records follow block order: the records of two runs of blocks are those of each in turn |
| Records.KeptBlock | main.py:177-185 | a kept block puts its record before those of the blocks after it |
| Records.SkippedBlock | main.py:127-131 | a block whose title strips to nothing, or that raised, adds no record |
| Records.TenDigitFallback | main.py:143-147 | without a phone span, a found ten-digit run is stored exactly as found |
| Records.BlankAddressStored | main.py:151-158 | a kept block with a blank address span stores `""` as its address |
| Crawler.VisitedShape | main.py:91-124 | pages are fetched consecutively from page 1, never beyond `max_pages`; all but the last lead on, and the last ends the crawl unless it is page `max_pages` |
| Crawler.CrawlIsGathered | main.py:91-190 | the crawl's records are those of the pages it visits, in page order and block order |
| Crawler.Range | main.py:91 | `range(from, to)` has `to - from` elements when `from < to`, none otherwise |
| Crawler.RangeElements | main.py:91 | `range(from, to)` counts up by one from `from` |
| Crawler.TimeoutSkipsPage | main.py:105-112 | a slow page adds no record, and the crawl continues with the next page |
| Crawler.StopPageEndsCrawl | main.py:119-124 | a page without listings, or one that raised, ends the crawl with nothing more gathered |
| Crawler.EarlierRecordsKept | main.py:91-195 | the records of pages that led on come first and are never dropped by what later pages do |
| Crawler.StopKeepsEarlierRecords | main.py:192-195 | a crawl that reaches a stopping page returns exactly the records of the pages before it |
| Crawler.CrawlWellFormed | main.py:126-185 | every record the crawl gathers is well formed |
| Crawler.PageStep | main.py:91-195 | one page either ends the crawl, is skipped, or adds its records before those of the next page |
| Crawler.OneMoreBlock | main.py:126-188 | one more block adds its own records after those of the blocks before it |
| Crawler.Scraper.constructor | main.py:15-16 | a new scraper has no results |
| Crawler.Scraper.ScanBlock | main.py:127-188 | one block appends its record, if kept, to `results`; the result says whether it was kept |
| Crawler.Scraper.ScanBlocks | main.py:126-188 | the block loop appends exactly the page's records to `results` and returns how many it appended |
| Crawler.Scraper.ScrapeSearch | main.py:78-197 | a failed setup opens no page, leaves `results` empty and returns 0; otherwise the pages the loop opens are exactly `VisitedFrom(req, site, 1)` (consecutive from 1, never past `max_pages`, by `VisitedShape`) and `results` is the crawl's records; the returned count is the length of `results` |
| Crawler.TraceStep | main.py:91-124 | opening a page extends the trace of opened pages; when the page ends the crawl the trace is complete |
| Dedup.DedupFromIsFirstOccurrences | main.py:303 | scanning with the phones of earlier records as the seen-set keeps exactly the first occurrences from there on |
| Dedup.DedupIsFirstOccurrences | main.py:303 | deduplication keeps exactly the records that are the first to carry their phone, in input order |
| Dedup.DedupFromShape | main.py:303 | the scan keeps a subsequence whose phones are unseen and pairwise distinct |
| Dedup.DedupFromPhones | main.py:303 | the scan keeps every phone value not yet seen, and no other |
| Dedup.DedupFacts | main.py:303 | the output is a subsequence of the input with pairwise distinct phones, and every input phone (`"N/A"` included) survives |
| Dedup.DedupKeepsFirst | main.py:303 | each surviving record is the first record of the input carrying its phone |
| Dedup.DedupIdempotent | main.py:303 | deduplicating twice is deduplicating once |
| Dedup.DistinctUnchanged | main.py:303 | records with distinct, unseen phones pass unchanged |
| Dedup.DedupExample | main.py:303 | `[A(1), B(2), C(1)]` deduplicates to `[A, B]` |
| Scenario.FirstPageOnly | main.py:91-124 | when page 1 has listings and page 2 has none, pages 1 and 2 are fetched and page 1's records are returned |
| Scenario.ThreeKeptBlocks | main.py:126-185 | three kept blocks give their three records in order |
| Scenario.TwoPageCrawl | main.py:91-197 | a three-page crawl whose page 1 has three listings (the third repeating the first's phone) and whose page 2 has none fetches pages 1 and 2, gathers three records, and shows two after deduplication |

## Left out

- Browser I/O is not modelled: starting Chrome, navigation, the waits, `time.sleep`, scrolling, XPath lookups and `driver.quit()` (lines 19-37, 49-55, 101-119, 134, 139, 154, 164, 199-201). Their outcomes are inputs: `Site`, `PageOutcome`, `BlockOutcome`, `DetailDoc` and `setupSucceeds`.
- Staleness is not modelled. Opening a detail page navigates away from the search page, so later blocks' elements may go stale and raise. The model has `BlockRaised` for any block, but does not derive which blocks go stale.
- Progress callbacks are not modelled. Their fractions are floating-point UI values (lines 99, 111, 123, 170, 194, 285), and they are not monotonic, so the model claims nothing about them.
- The Streamlit handler, metrics and the Excel/CSV export (lines 204-368) are presentation and library code. Of the handler, only the deduplication at line 303 is modelled.
- The defaults `max_pages=3` and `include_gstin=True` of `scrape_search` (line 78) are not modelled: `ScrapeSearch` takes every argument explicitly, as its only caller (lines 290-296) passes them all.
- Unicode is not modelled. `\d`, `\w`/`\b` and `lower()` are read in their ASCII sense; Python also accepts other Unicode digits, letters and case mappings.
- `ExtractGstin` takes the detail page's outcome as one value. It does not model which exception arose where, only its effect: a failed load gives `"N/A"`; a failed structural lookup falls through to the page source.
