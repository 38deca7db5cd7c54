/** Phone normalisation, `JustdialSeleniumScraper.clean_phone`. */
module Phone {
  import opened Wrappers
  import opened Text
  import opened Sequences

  /** The characters `[^\d,]` does not delete. */
  predicate IsPhoneChar(c: char) { IsDigit(c) || c == ',' }

  predicate AllPhoneChars(s: string) { forall k :: 0 <= k < |s| ==> IsPhoneChar(s[k]) }

  /** `re.sub(r'[^\d,]', '', s)`: delete every character that is neither a digit nor a comma. */
  function KeepPhoneChars(s: string): string
  {
    if s == [] then []
    else (if IsPhoneChar(s[0]) then [s[0]] else []) + KeepPhoneChars(s[1..])
  }

  /** What `KeepPhoneChars` keeps: only phone characters, in their original order. */
  lemma {:induction false} KeepPhoneCharsSound(s: string)
    ensures AllPhoneChars(KeepPhoneChars(s))
    ensures IsSubsequence(KeepPhoneChars(s), s)
  {
    if s != [] {
      KeepPhoneCharsSound(s[1..]);
      var rest := KeepPhoneChars(s[1..]);
      if IsPhoneChar(s[0]) {
        assert ([s[0]] + rest)[1..] == rest;
      } else {
        assert KeepPhoneChars(s) == rest;
      }
    }
  }

  /** What `KeepPhoneChars` keeps: every phone character of `s`, as often as it occurs there. */
  lemma {:induction false} KeepPhoneCharsComplete(s: string, c: char)
    ensures multiset(KeepPhoneChars(s))[c] == if IsPhoneChar(c) then multiset(s)[c] else 0
  {
    if s != [] {
      KeepPhoneCharsComplete(s[1..], c);
      assert s == [s[0]] + s[1..];
    }
  }

  /** A string made only of phone characters is left as it is. */
  lemma {:induction false} KeepPhoneCharsFixes(s: string)
    requires AllPhoneChars(s)
    ensures KeepPhoneChars(s) == s
  {
    if s != [] {
      KeepPhoneCharsFixes(s[1..]);
      assert s == [s[0]] + s[1..];
    }
  }

  /** The shape of every `clean_phone` result: the sentinel, or a non-empty run of digits and commas. */
  predicate IsCleanPhone(s: string) { s == NotAvailable || (s != [] && AllPhoneChars(s)) }

  /** `clean_phone(phone)`: the digits and commas of the phone, or the sentinel when there are none. */
  function CleanPhone(phone: Option<string>): string
  {
    match phone
    case None => NotAvailable
    case Some(p) =>
      if p == [] then NotAvailable
      else
        var cleaned := KeepPhoneChars(p);
        if cleaned != [] then cleaned else NotAvailable
  }

  /** Every result is a cleaned phone, and a missing or empty phone gives the sentinel. */
  lemma CleanPhoneShape(phone: Option<string>)
    ensures IsCleanPhone(CleanPhone(phone))
    ensures (phone.None? || phone.value == []) ==> CleanPhone(phone) == NotAvailable
  {
    if phone.Some? {
      KeepPhoneCharsSound(phone.value);
    }
  }

  /**
   * What `clean_phone` keeps of a present phone: the sentinel exactly when
   * the input holds no digit and no comma; otherwise the digits and commas of
   * the input, every one of them, in their original order.
   */
  lemma CleanPhoneContents(p: string)
    ensures CleanPhone(Some(p)) == NotAvailable <==> forall k :: 0 <= k < |p| ==> !IsPhoneChar(p[k])
    ensures CleanPhone(Some(p)) != NotAvailable ==>
      IsSubsequence(CleanPhone(Some(p)), p)
      && forall c :: IsPhoneChar(c) ==> multiset(CleanPhone(Some(p)))[c] == multiset(p)[c]
  {
    var cleaned := KeepPhoneChars(p);
    KeepPhoneCharsSound(p);
    forall c ensures multiset(cleaned)[c] == if IsPhoneChar(c) then multiset(p)[c] else 0 {
      KeepPhoneCharsComplete(p, c);
    }
    assert cleaned == [] <==> forall k :: 0 <= k < |p| ==> !IsPhoneChar(p[k]) by {
      if cleaned == [] {
        forall k | 0 <= k < |p| ensures !IsPhoneChar(p[k]) {
          assert p[k] in multiset(p);
        }
      } else {
        assert cleaned[0] in multiset(p);
      }
    }
    assert !IsPhoneChar(NotAvailable[0]);
  }

  /** Cleaning an already cleaned phone changes nothing; in particular `"N/A"` cleans to `"N/A"`. */
  lemma CleanPhoneIdempotent(phone: Option<string>)
    ensures CleanPhone(Some(CleanPhone(phone))) == CleanPhone(phone)
  {
    CleanPhoneShape(phone);
    CleanPhoneFixes(CleanPhone(phone));
  }

  /** The cleaned phones are exactly the fixed points of `CleanPhone`. */
  lemma CleanPhoneFixes(s: string)
    ensures CleanPhone(Some(s)) == s <==> IsCleanPhone(s)
  {
    if s == NotAvailable {
      assert !IsPhoneChar(s[0]) && !IsPhoneChar(s[1]) && !IsPhoneChar(s[2]);
    } else if IsCleanPhone(s) {
      KeepPhoneCharsFixes(s);
    } else {
      CleanPhoneShape(Some(s));
    }
  }
}
