/**
 * `df.drop_duplicates(subset=['Phone Number'], keep='first')` on the
 * scraped records: the first record for each phone value is kept, later ones
 * are dropped, and the survivors keep their order. The sentinel `"N/A"` is a
 * phone value like any other, so at most one record without a phone survives.
 */
module Dedup {
  import opened Records
  import opened Sequences

  /** The phone values of `rs`. */
  function Phones(rs: seq<Record>): (ps: set<string>)
    ensures forall k :: 0 <= k < |rs| ==> rs[k].phoneNumber in ps
    ensures forall p :: p in ps ==> exists k :: 0 <= k < |rs| && rs[k].phoneNumber == p
  {
    set k | 0 <= k < |rs| :: rs[k].phoneNumber
  }

  /** The records of `rs` whose phone is not in `seen` and not carried by an earlier record of `rs`. */
  function DedupFrom(rs: seq<Record>, seen: set<string>): seq<Record>
    decreases |rs|
  {
    if rs == [] then []
    else if rs[0].phoneNumber in seen then DedupFrom(rs[1..], seen)
    else [rs[0]] + DedupFrom(rs[1..], seen + {rs[0].phoneNumber})
  }

  /** Drop every record whose phone value an earlier record already carries. */
  function DropDuplicatePhones(rs: seq<Record>): seq<Record>
  {
    DedupFrom(rs, {})
  }

  /** Record `i` is the first of `rs` carrying its phone value. */
  predicate IsFirstOccurrence(rs: seq<Record>, i: int)
    requires 0 <= i < |rs|
  {
    forall j :: 0 <= j < i ==> rs[j].phoneNumber != rs[i].phoneNumber
  }

  /** The reference definition: the first occurrences among records `i..`, by index. */
  function FirstOccurrencesFrom(rs: seq<Record>, i: nat): seq<Record>
    requires i <= |rs|
    decreases |rs| - i
  {
    if i == |rs| then []
    else (if IsFirstOccurrence(rs, i) then [rs[i]] else []) + FirstOccurrencesFrom(rs, i + 1)
  }

  /** Scanning with the phones of the records before `i` as `seen` picks exactly the first occurrences from `i` on. */
  lemma {:induction false} DedupFromIsFirstOccurrences(rs: seq<Record>, i: nat)
    requires i <= |rs|
    ensures DedupFrom(rs[i..], Phones(rs[..i])) == FirstOccurrencesFrom(rs, i)
    decreases |rs| - i
  {
    if i < |rs| {
      DedupFromIsFirstOccurrences(rs, i + 1);
      assert rs[i..][1..] == rs[i + 1..];
      assert rs[..i + 1] == rs[..i] + [rs[i]];
      assert Phones(rs[..i + 1]) == Phones(rs[..i]) + {rs[i].phoneNumber} by {
        PhonesAppend(rs[..i], rs[i]);
      }
      assert rs[i].phoneNumber in Phones(rs[..i]) <==> !IsFirstOccurrence(rs, i) by {
        if rs[i].phoneNumber in Phones(rs[..i]) {
          var k :| 0 <= k < i && rs[..i][k].phoneNumber == rs[i].phoneNumber;
          assert rs[k].phoneNumber == rs[i].phoneNumber;
        } else {
          forall j | 0 <= j < i ensures rs[j].phoneNumber != rs[i].phoneNumber {
            assert rs[..i][j] == rs[j];
          }
        }
      }
      var seen := Phones(rs[..i]);
      if rs[i].phoneNumber in seen {
        assert seen + {rs[i].phoneNumber} == seen;
        assert DedupFrom(rs[i..], seen) == DedupFrom(rs[i + 1..], seen);
      } else {
        assert DedupFrom(rs[i..], seen) == [rs[i]] + DedupFrom(rs[i + 1..], seen + {rs[i].phoneNumber});
      }
    }
  }

  lemma PhonesAppend(rs: seq<Record>, r: Record)
    ensures Phones(rs + [r]) == Phones(rs) + {r.phoneNumber}
  {
    var all := rs + [r];
    forall p | p in Phones(all) ensures p in Phones(rs) + {r.phoneNumber} {
      var k :| 0 <= k < |all| && all[k].phoneNumber == p;
      if k < |rs| {
        assert all[k] == rs[k];
      }
    }
    forall p | p in Phones(rs) ensures p in Phones(all) {
      var k :| 0 <= k < |rs| && rs[k].phoneNumber == p;
      assert all[k] == rs[k];
    }
    assert all[|rs|] == r;
  }

  /** Deduplication keeps exactly the records that are the first to carry their phone, in input order. */
  lemma DedupIsFirstOccurrences(rs: seq<Record>)
    ensures DropDuplicatePhones(rs) == FirstOccurrencesFrom(rs, 0)
  {
    DedupFromIsFirstOccurrences(rs, 0);
    assert rs[0..] == rs;
    assert Phones(rs[..0]) == {};
  }

  /** What the scan with a `seen` set keeps: a subsequence of records with unseen, pairwise distinct phones. */
  lemma {:induction false} DedupFromShape(rs: seq<Record>, seen: set<string>)
    ensures var out := DedupFrom(rs, seen);
      IsSubsequence(out, rs)
      && (forall k :: 0 <= k < |out| ==> out[k].phoneNumber !in seen)
      && (forall k, l :: 0 <= k < l < |out| ==> out[k].phoneNumber != out[l].phoneNumber)
    decreases |rs|
  {
    if rs != [] {
      var r := rs[0];
      if r.phoneNumber in seen {
        DedupFromShape(rs[1..], seen);
      } else {
        var seen' := seen + {r.phoneNumber};
        DedupFromShape(rs[1..], seen');
        var rest := DedupFrom(rs[1..], seen');
        var out := [r] + rest;
        assert out[1..] == rest;
        forall k | 0 <= k < |out| ensures out[k].phoneNumber !in seen {
          if k > 0 {
            assert out[k] == rest[k - 1];
          }
        }
        forall k, l | 0 <= k < l < |out| ensures out[k].phoneNumber != out[l].phoneNumber {
          assert out[l] == rest[l - 1];
          if k > 0 {
            assert out[k] == rest[k - 1];
          }
        }
      }
    }
  }

  /** The scan with a `seen` set keeps every phone value of `rs` that is not in `seen`, and no other. */
  lemma {:induction false} DedupFromPhones(rs: seq<Record>, seen: set<string>)
    ensures Phones(DedupFrom(rs, seen)) == Phones(rs) - seen
    decreases |rs|
  {
    if rs != [] {
      var r := rs[0];
      assert Phones(rs) == {r.phoneNumber} + Phones(rs[1..]) by {
        PhonesCons(r, rs[1..]);
        assert rs == [r] + rs[1..];
      }
      if r.phoneNumber in seen {
        DedupFromPhones(rs[1..], seen);
      } else {
        var seen' := seen + {r.phoneNumber};
        DedupFromPhones(rs[1..], seen');
        PhonesCons(r, DedupFrom(rs[1..], seen'));
      }
    } else {
      assert Phones(rs) == {};
    }
  }

  lemma PhonesCons(r: Record, rs: seq<Record>)
    ensures Phones([r] + rs) == {r.phoneNumber} + Phones(rs)
  {
    var all := [r] + rs;
    forall p | p in Phones(all) ensures p in {r.phoneNumber} + Phones(rs) {
      var k :| 0 <= k < |all| && all[k].phoneNumber == p;
      if k > 0 {
        assert all[k] == rs[k - 1];
      }
    }
    forall p | p in Phones(rs) ensures p in Phones(all) {
      var k :| 0 <= k < |rs| && rs[k].phoneNumber == p;
      assert all[k + 1] == rs[k];
    }
    assert all[0] == r;
  }

  /**
   * The output is a subsequence of the input, its phone values are pairwise
   * distinct, and every phone value of the input (the sentinel included)
   * survives.
   */
  lemma DedupFacts(rs: seq<Record>)
    ensures IsSubsequence(DropDuplicatePhones(rs), rs)
    ensures var out := DropDuplicatePhones(rs);
      forall k, l :: 0 <= k < l < |out| ==> out[k].phoneNumber != out[l].phoneNumber
    ensures Phones(DropDuplicatePhones(rs)) == Phones(rs)
  {
    DedupFromShape(rs, {});
    DedupFromPhones(rs, {});
  }

  /** Each surviving record is the first record of the input carrying its phone value. */
  lemma DedupKeepsFirst(rs: seq<Record>, k: nat)
    requires k < |DropDuplicatePhones(rs)|
    ensures exists i :: 0 <= i < |rs| && IsFirstOccurrence(rs, i) && rs[i] == DropDuplicatePhones(rs)[k]
  {
    DedupIsFirstOccurrences(rs);
    FirstOccurrencesMembers(rs, 0, k);
  }

  lemma {:induction false} FirstOccurrencesMembers(rs: seq<Record>, i: nat, k: nat)
    requires i <= |rs| && k < |FirstOccurrencesFrom(rs, i)|
    ensures exists j :: i <= j < |rs| && IsFirstOccurrence(rs, j) && rs[j] == FirstOccurrencesFrom(rs, i)[k]
    decreases |rs| - i
  {
    var head := if IsFirstOccurrence(rs, i) then [rs[i]] else [];
    var rest := FirstOccurrencesFrom(rs, i + 1);
    if k < |head| {
      assert FirstOccurrencesFrom(rs, i)[k] == rs[i];
    } else {
      FirstOccurrencesMembers(rs, i + 1, k - |head|);
      assert FirstOccurrencesFrom(rs, i)[k] == rest[k - |head|];
    }
  }

  /** Deduplicating twice is deduplicating once. */
  lemma DedupIdempotent(rs: seq<Record>)
    ensures DropDuplicatePhones(DropDuplicatePhones(rs)) == DropDuplicatePhones(rs)
  {
    var out := DropDuplicatePhones(rs);
    DedupFacts(rs);
    DistinctUnchanged(out, {});
  }

  /** Records with pairwise distinct phones, none of them seen, pass the scan unchanged. */
  lemma {:induction false} DistinctUnchanged(rs: seq<Record>, seen: set<string>)
    requires forall k, l :: 0 <= k < l < |rs| ==> rs[k].phoneNumber != rs[l].phoneNumber
    requires forall k :: 0 <= k < |rs| ==> rs[k].phoneNumber !in seen
    ensures DedupFrom(rs, seen) == rs
    decreases |rs|
  {
    if rs != [] {
      var rest := rs[1..];
      forall k | 0 <= k < |rest| ensures rest[k].phoneNumber !in seen + {rs[0].phoneNumber} {
        assert rest[k] == rs[k + 1];
      }
      forall k, l | 0 <= k < l < |rest| ensures rest[k].phoneNumber != rest[l].phoneNumber {
        assert rest[k] == rs[k + 1] && rest[l] == rs[l + 1];
      }
      DistinctUnchanged(rest, seen + {rs[0].phoneNumber});
      assert rs == [rs[0]] + rest;
    }
  }

  /** `[A(1), B(2), C(1)]` deduplicates to `[A, B]`. */
  lemma DedupExample(a: Record, b: Record, c: Record)
    requires a.phoneNumber == c.phoneNumber && a.phoneNumber != b.phoneNumber
    ensures DropDuplicatePhones([a, b, c]) == [a, b]
  {
    var s := [a, b, c];
    assert s[1..] == [b, c] && [b, c][1..] == [c] && [c][1..] == [];
    var seen := {a.phoneNumber, b.phoneNumber};
    assert DedupFrom([c], seen) == [];
    assert {a.phoneNumber} + {b.phoneNumber} == seen;
    assert DedupFrom([b, c], {a.phoneNumber}) == [b] + DedupFrom([c], seen);
    assert {} + {a.phoneNumber} == {a.phoneNumber};
    assert DedupFrom(s, {}) == [a] + DedupFrom([b, c], {a.phoneNumber});
  }
}
