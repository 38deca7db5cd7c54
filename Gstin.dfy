/**
 * GSTIN enrichment, `JustdialSeleniumScraper.extract_gstin`: a fallback chain
 * over the detail page the browser opens. The browser is replaced by the
 * outcome of opening the page, supplied as a value.
 */
module Gstin {
  import opened Wrappers
  import opened Text
  import opened Patterns

  /** The structural lookup: a div whose text mentions GSTIN, then a `dtl_infotext` node under its parent. */
  datatype LabelLookup =
    | NoLabel               // no div mentions GSTIN
    | LookupRaised          // finding the parent or its value nodes raised
    | NoValueNode           // the parent holds no value node
    | ValueNode(text: string)  // the text of the first value node

  /** What opening a detail page gives. */
  datatype DetailDoc =
    | LoadFailed            // navigation, the 10-second wait for `body`, or anything else outside the inner try raised
    | Loaded(lookup: LabelLookup, source: Option<string>)  // `source` is None when reading the page source raised

  /** The detail page the site serves at `url`; one it does not serve fails to load. */
  function DetailAt(details: map<string, DetailDoc>, url: string): DetailDoc
  {
    if url in details then details[url] else LoadFailed
  }

  /**
   * `extract_gstin(detail_url)` on the page `doc`: the stripped structural
   * value if there is one, else the first GSTIN-shaped match in the page
   * source, else the sentinel; a failure anywhere gives the sentinel.
   */
  function ExtractGstin(doc: DetailDoc): string
  {
    match doc
    case LoadFailed => NotAvailable
    case Loaded(lookup, source) =>
      if lookup.ValueNode? then Strip(lookup.text)
      else
        match source
        case None => NotAvailable
        case Some(text) =>
          match SearchGroup(Gstin, text)
          case Some(m) => m
          case None => NotAvailable
  }

  /**
   * Without a structural value the page source is scanned: the result is the
   * leftmost GSTIN-shaped match, and the sentinel exactly when there is none.
   */
  lemma ExtractGstinScan(doc: DetailDoc)
    requires doc.Loaded? && !doc.lookup.ValueNode? && doc.source.Some?
    ensures var r := ExtractGstin(doc);
      (r == NotAvailable <==> !exists j :: MatchesAt(Gstin, doc.source.value, j))
      && (r != NotAvailable ==> GstinShaped(r) && SearchGroup(Gstin, doc.source.value) == Some(r))
  {
    SearchGroupSpec(Gstin, doc.source.value);
  }

  /**
   * Every result is one of three things, told apart by their shape: the
   * sentinel, a stripped structural value, or a GSTIN-shaped text scanned
   * from the page source.
   */
  lemma ExtractGstinOutcomes(doc: DetailDoc)
    ensures var r := ExtractGstin(doc);
      r == NotAvailable
      || (doc.Loaded? && doc.lookup.ValueNode? && r == Strip(doc.lookup.text))
      || (GstinShaped(r) && doc.Loaded? && doc.source.Some? && exists j :: MatchesAt(Gstin, doc.source.value, j) && r == doc.source.value[j..j + 15])
    ensures !GstinShaped(NotAvailable)
  {
  }

  /** The structural value wins even when the page source also holds a GSTIN. */
  lemma StructuralPreferred(text: string, source: string)
    requires SearchGroup(Gstin, source).Some?
    ensures ExtractGstin(Loaded(ValueNode(text), Some(source))) == Strip(text)
  {
  }

  /** A page with neither a structural value nor a textual GSTIN, in any way, gives the sentinel. */
  lemma BothFail(lookup: LabelLookup, source: string)
    requires !lookup.ValueNode?
    requires SearchGroup(Gstin, source).None?
    ensures ExtractGstin(Loaded(lookup, Some(source))) == NotAvailable
    ensures ExtractGstin(Loaded(lookup, None)) == NotAvailable
    ensures ExtractGstin(LoadFailed) == NotAvailable
  {
  }

  /** The structural value is stored as stripped, so it can be the empty string rather than the sentinel. */
  lemma StructuralMayBeEmpty()
    ensures ExtractGstin(Loaded(ValueNode("  "), None)) == ""
  {
    StripAllSpace("  ");
  }
}
