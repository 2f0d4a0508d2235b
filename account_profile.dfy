// The user profile's list of administered section codes, which
// `add_section_code` keeps as a sorted list without repeats and saves.
module AccountProfile {
  import opened Lists
  import opened Sorting

  /** Strictly increasing in Python's string order: sorted, no repeats. */
  predicate StrictlySorted(xs: seq<string>)
  {
    forall i, j :: 0 <= i < j < |xs| ==> StrLe(xs[i], xs[j]) && xs[i] != xs[j]
  }

  /** `sorted(set(codes) | {code})`, listing the set in first-seen order. */
  function CodesWith(codes: seq<string>, code: string): seq<string>
  {
    SortBy(Dedup(codes + [code]), StrOrder())
  }

  lemma InAppend(codes: seq<string>, code: string, x: string)
    ensures x in codes + [code] <==> x in codes || x == code
  {
  }

  /** The new list is strictly sorted and holds the old codes and the new
      one, nothing else. */
  lemma CodesWithMeaning(codes: seq<string>, code: string)
    ensures StrictlySorted(CodesWith(codes, code))
    ensures forall x :: x in CodesWith(codes, code) <==> x in codes || x == code
  {
    var d := Dedup(codes + [code]);
    DedupMeaning(codes + [code]);
    SortedStringsStrict(d);
    forall x ensures x in CodesWith(codes, code) <==> x in codes || x == code {
      InAppend(codes, code, x);
      assert x in CodesWith(codes, code) <==> x in multiset(CodesWith(codes, code));
      assert x in d <==> x in multiset(d);
    }
  }

  lemma StrictHeads(a: seq<string>, b: seq<string>)
    requires StrictlySorted(a) && StrictlySorted(b) && a != []
    requires forall x :: x in a <==> x in b
    ensures b != [] && a[0] == b[0]
  {
    assert a[0] in a;
    var k :| 0 <= k < |b| && b[k] == a[0];
    assert b[0] in b;
    var m :| 0 <= m < |a| && a[m] == b[0];
    if k != 0 {
      assert StrLe(b[0], b[k]) && b[0] != b[k];
      if m == 0 {
        assert false;
      } else {
        assert StrLe(a[0], a[m]);
        StrLeAntisymmetric(a[0], b[0]);
        assert false;
      }
    }
  }

  lemma StrictTail(a: seq<string>)
    requires StrictlySorted(a) && a != []
    ensures StrictlySorted(a[1..])
    ensures forall x :: x in a[1..] <==> x in a && x != a[0]
  {
    var ta := a[1..];
    forall i, j | 0 <= i < j < |ta| ensures StrLe(ta[i], ta[j]) && ta[i] != ta[j] {
      assert ta[i] == a[i + 1] && ta[j] == a[j + 1];
    }
    forall x | x in a && x != a[0] ensures x in ta {
      var i :| 0 <= i < |a| && a[i] == x;
      assert ta[i - 1] == x;
    }
    forall x | x in ta ensures x != a[0] {
      var i :| 0 <= i < |ta| && ta[i] == x;
      assert a[i + 1] == x;
    }
  }

  lemma HeadIn(b: seq<string>)
    ensures b != [] ==> b[0] in b
  {
  }

  /** Two strictly sorted lists with the same elements are the same list. */
  lemma {:induction false} StrictlySortedUnique(a: seq<string>, b: seq<string>)
    requires StrictlySorted(a) && StrictlySorted(b)
    requires forall x :: x in a <==> x in b
    ensures a == b
    decreases |a|
  {
    HeadIn(b);
    if a != [] {
      StrictHeads(a, b);
      StrictTail(a);
      StrictTail(b);
      StrictlySortedUnique(a[1..], b[1..]);
      assert a == [a[0]] + a[1..] && b == [b[0]] + b[1..];
    }
  }

  /** Whatever order the set is listed in, sorting it gives the same list:
      the result does not depend on how Python iterates the set. */
  lemma SetOrderIrrelevant(codes: seq<string>, code: string, listing: seq<string>)
    requires Distinct(listing)
    requires forall x :: x in listing <==> x in codes || x == code
    ensures SortBy(listing, StrOrder()) == CodesWith(codes, code)
  {
    var r := SortBy(listing, StrOrder());
    SortedStringsStrict(listing);
    CodesWithMeaning(codes, code);
    forall x ensures x in r <==> x in CodesWith(codes, code) {
      assert x in r <==> x in multiset(r);
      assert x in listing <==> x in multiset(listing);
    }
    StrictlySortedUnique(r, CodesWith(codes, code));
  }

  /** Adding a code already on a kept list changes nothing. */
  lemma AddingKnownCodeKeeps(codes: seq<string>, code: string)
    requires StrictlySorted(codes) && code in codes
    ensures CodesWith(codes, code) == codes
  {
    CodesWithMeaning(codes, code);
    StrictlySortedUnique(CodesWith(codes, code), codes);
  }

  /** So adding the same code twice is the same as adding it once. */
  lemma AddTwiceIsAddOnce(codes: seq<string>, code: string)
    ensures CodesWith(CodesWith(codes, code), code) == CodesWith(codes, code)
  {
    CodesWithMeaning(codes, code);
    AddingKnownCodeKeeps(CodesWith(codes, code), code);
  }

  /** A kept list is already in sorted order, so sorting it is a no-op. */
  lemma KeptListSortsToItself(codes: seq<string>)
    requires StrictlySorted(codes)
    ensures SortBy(codes, StrOrder()) == codes
  {
    SortOfSorted(codes, StrOrder());
  }

  /** The profile's section-admin codes, with what the database row holds
      since the last save. */
  class UserProfile {
    var sectionAdminCodes: seq<string>
    var savedCodes: seq<string>

    /** A profile loaded with `codes` as stored. */
    constructor(codes: seq<string>)
      ensures sectionAdminCodes == codes && savedCodes == codes
    {
      sectionAdminCodes := codes;
      savedCodes := codes;
    }

    /** `add_section_code`: an empty code is ignored; otherwise the code is
        added to the set of codes, the set is stored sorted, and the
        profile is saved. */
    method AddSectionCode(code: string)
      modifies this
      ensures code == "" ==> sectionAdminCodes == old(sectionAdminCodes) && savedCodes == old(savedCodes)
      ensures code != "" ==> sectionAdminCodes == CodesWith(old(sectionAdminCodes), code)
      ensures code != "" ==> savedCodes == sectionAdminCodes
    {
      if code == "" {
        return;
      }
      var codes := Dedup(sectionAdminCodes + [code]);
      sectionAdminCodes := SortBy(codes, StrOrder());
      savedCodes := sectionAdminCodes;
    }
  }
}
