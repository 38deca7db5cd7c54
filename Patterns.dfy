/**
 * The two regular expressions the scraper searches free text with, as
 * first-match scanners: `re.search` tries each start position from the left
 * and reports the first at which the whole fixed-width pattern matches.
 *   GSTIN:     \b\d{2}[A-Z]{5}\d{4}[A-Z]{1}[A-Z\d]{1}[Z]{1}[A-Z\d]{1}\b
 *   phone:     \b\d{10}\b
 */
module Patterns {
  import opened Wrappers
  import opened Text

  datatype Pattern = Gstin | TenDigits

  /** Both patterns match a fixed number of characters. */
  function Width(p: Pattern): nat
  {
    match p
    case Gstin => 15
    case TenDigits => 10
  }

  predicate IsUpperOrDigit(c: char) { IsUpper(c) || IsDigit(c) }

  /** The character classes of the GSTIN pattern, position by position. */
  predicate GstinShaped(w: string)
  {
    |w| == 15
    && IsDigit(w[0]) && IsDigit(w[1])
    && IsUpper(w[2]) && IsUpper(w[3]) && IsUpper(w[4]) && IsUpper(w[5]) && IsUpper(w[6])
    && IsDigit(w[7]) && IsDigit(w[8]) && IsDigit(w[9]) && IsDigit(w[10])
    && IsUpper(w[11]) && IsUpperOrDigit(w[12]) && w[13] == 'Z' && IsUpperOrDigit(w[14])
  }

  predicate TenDigitShaped(w: string)
  {
    |w| == 10 && forall k :: 0 <= k < 10 ==> IsDigit(w[k])
  }

  predicate Shaped(p: Pattern, w: string)
  {
    match p
    case Gstin => GstinShaped(w)
    case TenDigits => TenDigitShaped(w)
  }

  /** `\b` at position `i`: a word character on exactly one side of it. */
  predicate BoundaryAt(s: string, i: int)
    requires 0 <= i <= |s|
  {
    (i > 0 && IsWordChar(s[i - 1])) != (i < |s| && IsWordChar(s[i]))
  }

  /** The pattern, with its two `\b` anchors, matches `s` starting at `i`. */
  predicate MatchesAt(p: Pattern, s: string, i: int)
  {
    0 <= i && i + Width(p) <= |s|
    && BoundaryAt(s, i) && Shaped(p, s[i..i + Width(p)]) && BoundaryAt(s, i + Width(p))
  }

  /** The leftmost match starting at or after `i`. */
  function FirstMatchFrom(p: Pattern, s: string, i: nat): (r: Option<nat>)
    requires i <= |s|
    ensures r.Some? ==> i <= r.value && MatchesAt(p, s, r.value)
    decreases |s| - i
  {
    if MatchesAt(p, s, i) then Some(i)
    else if i == |s| then None
    else FirstMatchFrom(p, s, i + 1)
  }

  /** No match starts at or after `i` and before the one `FirstMatchFrom` reports, or anywhere from `i` on when it reports none. */
  lemma {:induction false} FirstMatchFromLeftmost(p: Pattern, s: string, i: nat)
    requires i <= |s|
    ensures FirstMatchFrom(p, s, i).Some? ==> forall j :: i <= j < FirstMatchFrom(p, s, i).value ==> !MatchesAt(p, s, j)
    ensures FirstMatchFrom(p, s, i).None? ==> forall j :: i <= j ==> !MatchesAt(p, s, j)
    decreases |s| - i
  {
    if !MatchesAt(p, s, i) && i < |s| {
      FirstMatchFromLeftmost(p, s, i + 1);
    }
  }

  /** `re.search(pattern, s)`: the start of the leftmost match, if any. */
  function FirstMatch(p: Pattern, s: string): (r: Option<nat>)
    ensures r.Some? ==> MatchesAt(p, s, r.value)
  {
    FirstMatchFrom(p, s, 0)
  }

  /** There is a match exactly when `FirstMatch` reports one, and no match starts before the one it reports. */
  lemma FirstMatchLeftmost(p: Pattern, s: string)
    ensures FirstMatch(p, s).Some? <==> exists j :: MatchesAt(p, s, j)
    ensures FirstMatch(p, s).Some? ==> forall j :: 0 <= j < FirstMatch(p, s).value ==> !MatchesAt(p, s, j)
  {
    FirstMatchFromLeftmost(p, s, 0);
  }

  /** `re.search(pattern, s).group()`: the text of the leftmost match, if any. */
  function SearchGroup(p: Pattern, s: string): (m: Option<string>)
    ensures m.Some? ==> |m.value| == Width(p) && Shaped(p, m.value)
  {
    match FirstMatch(p, s)
    case None => None
    case Some(i) => Some(s[i..i + Width(p)])
  }

  /**
   * `SearchGroup` reports a text exactly when the pattern matches somewhere,
   * and the text it reports is the one at the leftmost match.
   */
  lemma SearchGroupSpec(p: Pattern, s: string)
    ensures SearchGroup(p, s).Some? <==> exists j :: MatchesAt(p, s, j)
    ensures SearchGroup(p, s).Some? ==>
      exists j :: (MatchesAt(p, s, j) && SearchGroup(p, s).value == s[j..j + Width(p)]
                   && forall i :: 0 <= i < j ==> !MatchesAt(p, s, i))
  {
    FirstMatchLeftmost(p, s);
    if FirstMatch(p, s).Some? {
      var j := FirstMatch(p, s).value;
      assert MatchesAt(p, s, j) && SearchGroup(p, s).value == s[j..j + Width(p)];
    }
  }

  /** A match with none to its left is the one reported. */
  lemma LeftmostMatchReported(p: Pattern, s: string, i: nat)
    requires MatchesAt(p, s, i)
    requires forall j :: 0 <= j < i ==> !MatchesAt(p, s, j)
    ensures SearchGroup(p, s) == Some(s[i..i + Width(p)])
  {
    FirstMatchLeftmost(p, s);
  }

  /** Every reported GSTIN is 15 characters long with a `Z` at index 13. */
  lemma GstinMatchHasZ(s: string)
    requires SearchGroup(Gstin, s).Some?
    ensures |SearchGroup(Gstin, s).value| == 15 && SearchGroup(Gstin, s).value[13] == 'Z'
  {
  }

  /** The well-formed identifier on its own is found, whole. */
  lemma GstinAccepted()
    ensures SearchGroup(Gstin, "07AAACB1234C1Z5") == Some("07AAACB1234C1Z5")
  {
    var s := "07AAACB1234C1Z5";
    SampleShaped();
    assert s[0..15] == s;
    assert MatchesAt(Gstin, s, 0);
  }

  /** The sample identifier has the GSTIN shape. */
  lemma SampleShaped()
    ensures GstinShaped("07AAACB1234C1Z5")
  {
  }

  /** A 15-character string without `Z` at index 13 is not a GSTIN. */
  lemma GstinRequiresZ(s: string)
    requires |s| == 15 && s[13] != 'Z'
    ensures SearchGroup(Gstin, s) == None
  {
    forall j | 0 <= j ensures !MatchesAt(Gstin, s, j) {
      if j == 0 {
        assert s[0..15] == s;
      }
    }
  }

  /** The identifier is found inside surrounding text, between non-word characters. */
  lemma GstinInText()
    ensures SearchGroup(Gstin, "GSTIN: 07AAACB1234C1Z5.") == Some("07AAACB1234C1Z5")
  {
    var s := "GSTIN: 07AAACB1234C1Z5.";
    SampleShaped();
    assert s[7..22] == "07AAACB1234C1Z5";
    assert BoundaryAt(s, 7) && BoundaryAt(s, 22);
    assert MatchesAt(Gstin, s, 7);
    assert s[..7] == "GSTIN: ";
    forall j | 0 <= j < 7 ensures !MatchesAt(Gstin, s, j) {
      assert s[j] == s[..7][j];
    }
    LeftmostMatchReported(Gstin, s, 7);
  }

  /** A word character glued to the front defeats the leading `\b`. */
  lemma GstinNeedsBoundary()
    ensures SearchGroup(Gstin, "X07AAACB1234C1Z5") == None
  {
    var s := "X07AAACB1234C1Z5";
    forall j | 0 <= j ensures !MatchesAt(Gstin, s, j) {
      if j == 1 {
        assert !BoundaryAt(s, 1);
      }
    }
  }

  /** A bare ten-digit run in a block's text is found. */
  lemma TenDigitsInText()
    ensures SearchGroup(TenDigits, "Call 9876543210 now") == Some("9876543210")
  {
    var s := "Call 9876543210 now";
    assert s[5..15] == "9876543210";
    assert MatchesAt(TenDigits, s, 5);
    assert s[..5] == "Call ";
    forall j | 0 <= j < 5 ensures !MatchesAt(TenDigits, s, j) {
      assert s[j] == s[..5][j];
    }
    LeftmostMatchReported(TenDigits, s, 5);
  }

  /** Ten digits inside a longer digit run are not a match: `\b` fails on both sides. */
  lemma TenDigitsNotInsideLongerRun()
    ensures SearchGroup(TenDigits, "+919876543210") == None
  {
    var s := "+919876543210";
    forall j | 0 <= j ensures !MatchesAt(TenDigits, s, j) {
      if j == 1 {
        assert !BoundaryAt(s, 11);
      } else if j == 2 || j == 3 {
        assert !BoundaryAt(s, j);
      }
    }
  }
}
