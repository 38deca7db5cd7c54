/**
 * Record assembly inside `scrape_search`: what one result block on a search
 * page becomes. Each element lookup the browser would perform is replaced by
 * its outcome, supplied as a value.
 */
module Records {
  import opened Wrappers
  import opened Text
  import opened Phone
  import opened Patterns
  import opened Gstin

  /** The phone lookup in a block's container. */
  datatype PhoneLookup =
    | PhoneRaised                    // the lookup raised
    | PhoneNode(text: string)        // text of the first `callcontent` / `callNowAnchor` span
    | NoPhoneNode(containerText: string)  // no such span: the container's whole text

  /** The address lookup in a block's container. */
  datatype AddressLookup =
    | AddressRaised
    | AddressNode(text: string)      // text of the first `address` / `mrehover` span
    | NoAddressNode

  /** The nearest enclosing anchor of the title. */
  datatype LinkLookup =
    | NoAnchor                       // finding it raised
    | Anchor(href: Option<string>)   // its `href` attribute, None when absent

  /** One result block: a `resultbox_title_anchor` heading and what lies around it. */
  datatype BlockOutcome =
    | BlockRaised                    // reading the title or finding its container raised
    | Entry(title: string, phone: PhoneLookup, address: AddressLookup, link: LinkLookup)

  /** One business listing, the dictionary appended to `results`. */
  datatype Record = Record(
    companyName: string,
    phoneNumber: string,
    gstin: string,
    address: string,
    location: string,
    searchTerm: string)

  /** The arguments a crawl is called with. */
  datatype Request = Request(location: string, searchTerm: string, maxPages: int, includeGstin: bool)

  /** The marker of a detail-page address. */
  const DetailMarker: string := "BZDET"

  /**
   * The phone text before cleaning: the stripped structural text, else the
   * first bare ten-digit run of the container's text, else the sentinel.
   */
  function RawPhone(lookup: PhoneLookup): string
  {
    match lookup
    case PhoneRaised => NotAvailable
    case PhoneNode(text) => Strip(text)
    case NoPhoneNode(text) =>
      match SearchGroup(TenDigits, text)
      case Some(m) => m
      case None => NotAvailable
  }

  /**
   * The phone fallback chain: the stripped span text when there is a span;
   * otherwise the leftmost bare ten-digit run of the container's text, or the
   * sentinel when there is none; the sentinel when the lookup raised.
   */
  lemma RawPhoneChain(lookup: PhoneLookup)
    ensures lookup.PhoneNode? ==> RawPhone(lookup) == Strip(lookup.text)
    ensures lookup.NoPhoneNode? ==>
      if exists j :: MatchesAt(TenDigits, lookup.containerText, j)
      then TenDigitShaped(RawPhone(lookup)) && SearchGroup(TenDigits, lookup.containerText) == Some(RawPhone(lookup))
      else RawPhone(lookup) == NotAvailable
    ensures lookup.PhoneRaised? ==> RawPhone(lookup) == NotAvailable
  {
    if lookup.NoPhoneNode? {
      SearchGroupSpec(TenDigits, lookup.containerText);
    }
  }

  /** The stripped address span text, else the sentinel. */
  function RawAddress(lookup: AddressLookup): string
  {
    match lookup
    case AddressNode(text) => Strip(text)
    case _ => NotAvailable
  }

  /** The guard on enrichment: a non-empty `href` containing the detail marker. */
  predicate IsDetailLink(link: LinkLookup)
  {
    link.Anchor? && link.href.Some? && link.href.value != [] && Contains(link.href.value, DetailMarker)
  }

  /**
   * The GSTIN stored for a block when enrichment is requested: the detail
   * page is opened only for a detail link; any other link, or a missing
   * anchor, leaves the sentinel.
   */
  function DetailGstin(details: map<string, DetailDoc>, link: LinkLookup): string
  {
    if IsDetailLink(link) then ExtractGstin(DetailAt(details, link.href.value)) else NotAvailable
  }

  /** The record a block yields, None when the block is skipped. */
  function BuildRecord(req: Request, details: map<string, DetailDoc>, block: BlockOutcome): Option<Record>
  {
    match block
    case BlockRaised => None
    case Entry(title, phone, address, link) =>
      var companyName := Strip(title);
      if companyName == [] then None
      else Some(Record(
        companyName,
        CleanPhone(Some(RawPhone(phone))),
        if req.includeGstin then DetailGstin(details, link) else NotAvailable,
        RawAddress(address),
        req.location,
        req.searchTerm))
  }

  /**
   * A block is kept exactly when it is an entry whose title strips to
   * something; its record holds the stripped title, the cleaned phone,
   * the stripped address span (the sentinel without one), the request's
   * location and search term, and a GSTIN other than the sentinel only when
   * enrichment was requested and the title links a detail page, in which
   * case it is what that detail page yields.
   */
  lemma BuildRecordSpec(req: Request, details: map<string, DetailDoc>, block: BlockOutcome)
    ensures var r := BuildRecord(req, details, block);
      (r.Some? <==> block.Entry? && Strip(block.title) != [])
      && (r.Some? ==>
            r.value.companyName == Strip(block.title)
            && r.value.phoneNumber == CleanPhone(Some(RawPhone(block.phone)))
            && IsCleanPhone(r.value.phoneNumber)
            && r.value.address == RawAddress(block.address)
            && r.value.location == req.location && r.value.searchTerm == req.searchTerm
            && (r.value.gstin != NotAvailable ==> req.includeGstin && IsDetailLink(block.link))
            && (req.includeGstin && IsDetailLink(block.link) ==>
                  r.value.gstin == ExtractGstin(DetailAt(details, block.link.href.value))))
  {
    if block.Entry? {
      CleanPhoneShape(Some(RawPhone(block.phone)));
    }
  }

  /** The records a page's blocks yield, in block order. */
  function PageRecords(req: Request, details: map<string, DetailDoc>, blocks: seq<BlockOutcome>): (rs: seq<Record>)
    ensures |rs| <= |blocks|
    decreases |blocks|
  {
    if blocks == [] then []
    else
      var rest := PageRecords(req, details, blocks[1..]);
      match BuildRecord(req, details, blocks[0])
      case None => rest
      case Some(r) => [r] + rest
  }

  /** The shape every stored record has. */
  predicate WellFormed(req: Request, r: Record)
  {
    r.companyName != [] && Strip(r.companyName) == r.companyName
    && IsCleanPhone(r.phoneNumber)
    && r.location == req.location && r.searchTerm == req.searchTerm
    && (!req.includeGstin ==> r.gstin == NotAvailable)
  }

  /** Every record of a page is well formed. */
  lemma {:induction false} PageRecordsWellFormed(req: Request, details: map<string, DetailDoc>, blocks: seq<BlockOutcome>)
    ensures forall r :: r in PageRecords(req, details, blocks) ==> WellFormed(req, r)
    decreases |blocks|
  {
    if blocks != [] {
      PageRecordsWellFormed(req, details, blocks[1..]);
      var b := blocks[0];
      BuildRecordSpec(req, details, b);
      if BuildRecord(req, details, b).Some? {
        StripIdempotent(b.title);
      }
    }
  }

  /** Records follow block order: the records of two runs of blocks are those of each, in turn. */
  lemma {:induction false} PageRecordsAppend(req: Request, details: map<string, DetailDoc>, a: seq<BlockOutcome>, b: seq<BlockOutcome>)
    ensures PageRecords(req, details, a + b) == PageRecords(req, details, a) + PageRecords(req, details, b)
    decreases |a|
  {
    if a == [] {
      assert a + b == b;
    } else {
      assert (a + b)[1..] == a[1..] + b;
      PageRecordsAppend(req, details, a[1..], b);
    }
  }

  /** A kept block puts its record in front of those of the blocks after it. */
  lemma KeptBlock(req: Request, details: map<string, DetailDoc>, b: BlockOutcome, blocks: seq<BlockOutcome>)
    requires BuildRecord(req, details, b).Some?
    ensures PageRecords(req, details, [b] + blocks) == [BuildRecord(req, details, b).value] + PageRecords(req, details, blocks)
  {
    assert ([b] + blocks)[1..] == blocks;
  }

  /** A block whose title strips to nothing, or that raised, adds no record. */
  lemma SkippedBlock(req: Request, details: map<string, DetailDoc>, b: BlockOutcome, blocks: seq<BlockOutcome>)
    requires b.BlockRaised? || Strip(b.title) == []
    ensures PageRecords(req, details, [b] + blocks) == PageRecords(req, details, blocks)
  {
    assert ([b] + blocks)[1..] == blocks;
  }

  /** A block without a phone span but with a bare ten-digit run stores exactly those ten digits. */
  lemma TenDigitFallback(text: string)
    requires SearchGroup(TenDigits, text).Some?
    ensures CleanPhone(Some(RawPhone(NoPhoneNode(text)))) == SearchGroup(TenDigits, text).value
  {
    var m := SearchGroup(TenDigits, text).value;
    assert AllPhoneChars(m);
    CleanPhoneFixes(m);
  }

  /** A kept block whose address span is blank stores the empty string as its address, not the sentinel. */
  lemma BlankAddressStored(req: Request, details: map<string, DetailDoc>, title: string, phone: PhoneLookup, link: LinkLookup)
    requires Strip(title) != []
    ensures BuildRecord(req, details, Entry(title, phone, AddressNode(" "), link)).value.address == ""
  {
    StripAllSpace(" ");
  }
}
