/** Search-page addresses built in `scrape_search` from the location, the search term and the page number. */
module SearchUrl {
  import opened Text

  const Host: string := "https://www.justdial.com/"

  /** `s.replace(' ', '-')`. */
  function ReplaceSpaces(s: string): (r: string)
    ensures |r| == |s|
    ensures forall k :: 0 <= k < |s| ==> r[k] == if s[k] == ' ' then '-' else s[k]
  {
    seq(|s|, k requires 0 <= k < |s| => if s[k] == ' ' then '-' else s[k])
  }

  function LowerChar(c: char): char
  {
    if IsUpper(c) then ((c as int) - ('A' as int) + ('a' as int)) as char else c
  }

  /** `s.lower()`, on ASCII letters. */
  function Lower(s: string): (r: string)
    ensures |r| == |s|
    ensures forall k :: 0 <= k < |s| ==> r[k] == LowerChar(s[k])
  {
    seq(|s|, k requires 0 <= k < |s| => LowerChar(s[k]))
  }

  /**
   * `replace(' ', '-')` leaves no space behind, keeps every other character
   * where it was, and changes nothing the second time.
   */
  lemma ReplaceSpacesClears(s: string)
    ensures |ReplaceSpaces(s)| == |s|
    ensures forall k :: 0 <= k < |s| ==> ReplaceSpaces(s)[k] != ' '
    ensures forall k :: 0 <= k < |s| && s[k] != ' ' ==> ReplaceSpaces(s)[k] == s[k]
    ensures ReplaceSpaces(ReplaceSpaces(s)) == ReplaceSpaces(s)
  {
  }

  /**
   * `lower()` leaves no ASCII capital behind, fixes every character that is
   * not one, and changes nothing the second time.
   */
  lemma LowerClears(s: string)
    ensures |Lower(s)| == |s|
    ensures forall k :: 0 <= k < |s| ==> !IsUpper(Lower(s)[k])
    ensures forall k :: 0 <= k < |s| && !IsUpper(s[k]) ==> Lower(s)[k] == s[k]
    ensures Lower(s) == s <==> forall k :: 0 <= k < |s| ==> !IsUpper(s[k])
    ensures Lower(Lower(s)) == Lower(s)
  {
  }

  /** `s.replace(' ', '-').lower()`: the form the site expects in a path segment. */
  function Slug(s: string): string
  {
    Lower(ReplaceSpaces(s))
  }

  /** What one character of the input becomes in the slug. */
  function SlugChar(c: char): char
  {
    LowerChar(if c == ' ' then '-' else c)
  }

  /** A slug holds no space and no upper-case letter, and keeps every other character but case. */
  lemma SlugChars(s: string)
    ensures |Slug(s)| == |s|
    ensures forall k :: 0 <= k < |s| ==> Slug(s)[k] == SlugChar(s[k])
    ensures forall k :: 0 <= k < |s| ==> Slug(s)[k] != ' ' && !IsUpper(Slug(s)[k])
    ensures forall k :: 0 <= k < |s| ==>
      Slug(s)[k] == if s[k] == ' ' then '-' else if IsUpper(s[k]) then s[k] - 'A' + 'a' else s[k]
  {
  }

  /** The slug of `s` is the string whose characters are those of `s` slugged one by one. */
  lemma SlugIs(s: string, t: string)
    requires |t| == |s| && forall k :: 0 <= k < |s| ==> t[k] == SlugChar(s[k])
    ensures Slug(s) == t
  {
    SlugChars(s);
  }

  /** Slugging a slug changes nothing. */
  lemma SlugIdempotent(s: string)
    ensures Slug(Slug(s)) == Slug(s)
  {
    SlugChars(s);
    SlugChars(Slug(s));
  }

  /** The address of the first result page. */
  function SearchPath(location: string, searchTerm: string): string
  {
    Host + Slug(location) + "/" + Slug(searchTerm)
  }

  /** The address fetched for `page`: the bare search path for page 1, `/page-N` appended for any other page N. */
  function PageUrl(location: string, searchTerm: string, page: nat): (r: string)
    ensures SearchPath(location, searchTerm) <= r
    ensures r == SearchPath(location, searchTerm) <==> page == 1
  {
    var base := SearchPath(location, searchTerm);
    if page == 1 then base else base + "/page-" + DecimalString(page)
  }

  /** Different pages of one search have different addresses. */
  lemma PageUrlInjective(location: string, searchTerm: string, p: nat, q: nat)
    requires PageUrl(location, searchTerm, p) == PageUrl(location, searchTerm, q)
    ensures p == q
  {
    var base := SearchPath(location, searchTerm);
    if p != 1 && q != 1 {
      var u := PageUrl(location, searchTerm, p);
      assert DecimalString(p) == u[|base| + 6..];
      assert DecimalString(q) == u[|base| + 6..];
      DecimalInjective(p, q);
    }
  }

  /** `("New Delhi", "Timber Suppliers")` addresses its first two result pages like this. */
  lemma NewDelhiTimber()
    ensures PageUrl("New Delhi", "Timber Suppliers", 1) == "https://www.justdial.com/new-delhi/timber-suppliers"
    ensures PageUrl("New Delhi", "Timber Suppliers", 2) == "https://www.justdial.com/new-delhi/timber-suppliers/page-2"
  {
    NewDelhiTimberPath();
    NewDelhiTimberSecond();
  }

  /** The second page of the example. */
  lemma NewDelhiTimberSecond()
    requires SearchPath("New Delhi", "Timber Suppliers") == "https://www.justdial.com/new-delhi/timber-suppliers"
    ensures PageUrl("New Delhi", "Timber Suppliers", 2) == "https://www.justdial.com/new-delhi/timber-suppliers/page-2"
  {
    assert DecimalString(2) == "2";
  }

  /** The two slugs of the example, in the search path. */
  lemma NewDelhiTimberPath()
    ensures SearchPath("New Delhi", "Timber Suppliers") == "https://www.justdial.com/new-delhi/timber-suppliers"
  {
    NewDelhiSlugs();
    var path := Host + "new-delhi";
    assert path == "https://www.justdial.com/new-delhi";
    assert path + "/" + "timber-suppliers" == "https://www.justdial.com/new-delhi/timber-suppliers";
  }

  /** The two slugs of the example. */
  lemma NewDelhiSlugs()
    ensures Slug("New Delhi") == "new-delhi" && Slug("Timber Suppliers") == "timber-suppliers"
  {
    SlugIs("New Delhi", "new-delhi");
    SlugIs("Timber Suppliers", "timber-suppliers");
  }
}
