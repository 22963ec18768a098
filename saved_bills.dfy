/** The saved-bills screen of app/SavedBillsScreen.js: the search over the
    saved bills, and deleting a bill from the list. */
module SavedBills {
  import opened Strings
  import opened Lists

  /** A saved bill. Only its name takes part in the search; the screen tells
      bills apart by identity (`b === item`), which is reference equality on
      objects of this class. */
  class SavedBill {
    /** `bill.name`: absent (`undefined` or `null`) is `None`. */
    const name: Option<string>

    constructor (name: Option<string>)
      ensures this.name == name
    {
      this.name := name;
    }
  }

  /** The search filter: the bill has a name that is not empty (an empty
      string is falsy) and, both lower-cased, the name contains the search
      text. */
  predicate Matches(bill: SavedBill, search: string) {
    bill.name.Some? && bill.name.value != [] &&
    Contains(Lower(bill.name.value), Lower(search))
  }

  /** The bills the screen shows, before sorting: `savedLists.filter(...)`. */
  function Filtered(bills: seq<SavedBill>, search: string): (r: seq<SavedBill>)
    ensures |r| <= |bills|
    decreases |bills|
  {
    if bills == [] then []
    else (if Matches(bills[0], search) then [bills[0]] else []) + Filtered(bills[1..], search)
  }

  /** The screen's state: the saved bills and the search box. */
  class SavedBillsScreen {
    var savedLists: seq<SavedBill>
    var search: string

    constructor (saved: seq<SavedBill>)
      ensures savedLists == saved && search == []
    {
      savedLists := saved;
      search := [];
    }

    /** The bills on screen. */
    function Shown(): seq<SavedBill>
      reads this
    {
      Filtered(savedLists, search)
    }

    /** Typing in the search box. */
    method SetSearch(text: string)
      modifies this
      ensures search == text && savedLists == old(savedLists)
    {
      search := text;
    }

    /** `deleteSavedList`: a copy of the list with `splice(index, 1)` applied
        becomes the new list. */
    method DeleteSavedList(index: int)
      modifies this
      ensures savedLists == Spliced(old(savedLists), index)
      ensures 0 <= index < |old(savedLists)| ==>
                savedLists == old(savedLists)[..index] + old(savedLists)[index + 1..]
      ensures index == -1 && old(savedLists) != [] ==>
                savedLists == old(savedLists)[..|old(savedLists)| - 1]
      ensures search == old(search)
    {
      var allLists := savedLists;
      allLists := Spliced(allLists, index);
      savedLists := allLists;
      SplicedMeaning(old(savedLists), index);
      WithoutMeaning(old(savedLists), index);
      WithoutMeaning(old(savedLists), |old(savedLists)| - 1);
    }

    /** The index the Open and Delete buttons of a shown bill pass on
        (`savedLists.findIndex(b => b === item)`). */
    function IndexOf(bill: SavedBill): (i: int)
      reads this
      ensures bill in Filtered(savedLists, search) ==> 0 <= i < |savedLists| && savedLists[i] == bill
    {
      if bill in Filtered(savedLists, search) then
        ShownBillIsFound(savedLists, search, bill);
        FindIndex(savedLists, bill)
      else
        FindIndex(savedLists, bill)
    }

    /** The Delete button of a shown bill: that bill, and when the bills are
        distinct objects only that bill, leaves the list. */
    method DeleteShown(bill: SavedBill)
      requires bill in Filtered(savedLists, search)
      modifies this
      ensures bill in old(savedLists) &&
              savedLists == Without(old(savedLists), FirstIndex(old(savedLists), bill))
      ensures |savedLists| == |old(savedLists)| - 1
      ensures NoDuplicates(old(savedLists)) ==>
                bill !in savedLists &&
                forall b :: b in old(savedLists) && b != bill ==> b in savedLists
      ensures search == old(search)
    {
      var index := IndexOf(bill);
      FindIndexMeaning(savedLists, bill);
      WithoutMeaning(savedLists, index);
      DeleteSavedList(index);
      ghost var s := old(savedLists);
      if NoDuplicates(s) {
        RemovedOnce(s, index);
      }
    }
  }

  // ---------------------------------------------------------------------
  // what the search and the delete promise

  /** A bill is shown exactly when it is saved and matches the search. */
  lemma {:induction false} FilteredMembers(bills: seq<SavedBill>, search: string)
    ensures forall b :: b in Filtered(bills, search) <==> b in bills && Matches(b, search)
    decreases |bills|
  {
    if bills != [] {
      FilteredMembers(bills[1..], search);
      assert bills == [bills[0]] + bills[1..];
    }
  }

  lemma {:induction false} ContainsEmpty(s: string)
    ensures Contains(s, [])
  {
  }

  /** With an empty search box every named bill is shown, and no other. */
  lemma EmptySearchShowsNamed(bills: seq<SavedBill>)
    ensures forall b :: b in Filtered(bills, []) <==>
              b in bills && b.name.Some? && b.name.value != []
  {
    FilteredMembers(bills, []);
    forall b: SavedBill | b.name.Some? ensures Contains(Lower(b.name.value), Lower([])) {
      ContainsEmpty(Lower(b.name.value));
    }
  }

  /** A bill without a name is never shown, whatever the search. */
  lemma UnnamedNeverShown(bills: seq<SavedBill>, search: string, b: SavedBill)
    requires b.name.None? || b.name.value == []
    ensures b !in Filtered(bills, search)
  {
    FilteredMembers(bills, search);
  }

  /** The search ignores case: upper-casing an ASCII letter in the search
      text does not change what is shown. */
  lemma SearchIgnoresCase(bills: seq<SavedBill>, s1: string, s2: string)
    requires Lower(s1) == Lower(s2)
    ensures Filtered(bills, s1) == Filtered(bills, s2)
    decreases |bills|
  {
    if bills != [] {
      SearchIgnoresCase(bills[1..], s1, s2);
    }
  }

  lemma {:induction false} SubsequenceDropFirst<T>(a: seq<T>, b: seq<T>)
    requires a != [] && IsSubsequence(a, b)
    ensures IsSubsequence(a[1..], b)
    decreases |b|, 0
  {
    if a[0] != b[0] {
      SubsequenceDropFirst(a, b[1..]);
      SubsequenceCons(a[1..], b[1..], b[0]);
      assert [b[0]] + b[1..] == b;
    } else {
      SubsequenceCons(a[1..], b[1..], b[0]);
      assert [b[0]] + b[1..] == b;
    }
  }

  /** Putting an element in front keeps a subsequence one. */
  lemma {:induction false} SubsequenceCons<T>(a: seq<T>, b: seq<T>, x: T)
    requires IsSubsequence(a, b)
    ensures IsSubsequence(a, [x] + b)
    decreases |b|, 1
  {
    assert ([x] + b)[1..] == b;
    if a != [] && a[0] == x {
      SubsequenceDropFirst(a, b);
    }
  }

  /** The shown bills are saved bills in their saved order (before the sort
      the screen applies to them). */
  lemma {:induction false} FilteredIsSubsequence(bills: seq<SavedBill>, search: string)
    ensures IsSubsequence(Filtered(bills, search), bills)
    decreases |bills|
  {
    if bills != [] {
      FilteredIsSubsequence(bills[1..], search);
      var rest := Filtered(bills[1..], search);
      if Matches(bills[0], search) {
        assert ([bills[0]] + rest)[1..] == rest;
      } else {
        assert [] + rest == rest;
        SubsequenceCons(rest, bills[1..], bills[0]);
        assert [bills[0]] + bills[1..] == bills;
      }
    }
  }

  /** Distinct saved bills are shown at most once each. */
  lemma {:induction false} FilteredNoDuplicates(bills: seq<SavedBill>, search: string)
    requires NoDuplicates(bills)
    ensures NoDuplicates(Filtered(bills, search))
    decreases |bills|
  {
    if bills != [] {
      assert NoDuplicates(bills[1..]) by {
        forall i, j | 0 <= i < j < |bills[1..]| ensures bills[1..][i] != bills[1..][j] {
          assert bills[1..][i] == bills[i + 1] && bills[1..][j] == bills[j + 1];
        }
      }
      FilteredNoDuplicates(bills[1..], search);
      FilteredMembers(bills[1..], search);
      var rest := Filtered(bills[1..], search);
      if Matches(bills[0], search) {
        assert bills[0] !in bills[1..] by {
          forall k | 0 <= k < |bills[1..]| ensures bills[1..][k] != bills[0] {
            assert bills[1..][k] == bills[k + 1];
          }
        }
        var r := [bills[0]] + rest;
        forall i, j | 0 <= i < j < |r| ensures r[i] != r[j] {
          assert r[j] == rest[j - 1];
          if i > 0 {
            assert r[i] == rest[i - 1];
          } else {
            assert rest[j - 1] in rest;
          }
        }
      } else {
        assert [] + rest == rest;
      }
    }
  }

  /** The index a shown bill's buttons pass is the bill's own position, so
      Open and Delete act on the bill that was pressed. */
  lemma ShownBillIsFound(bills: seq<SavedBill>, search: string, bill: SavedBill)
    requires bill in Filtered(bills, search)
    ensures 0 <= FindIndex(bills, bill) < |bills| && bills[FindIndex(bills, bill)] == bill
  {
    FilteredMembers(bills, search);
    FindIndexMeaning(bills, bill);
  }

  /** Removing position `i` from a list of distinct elements removes the
      element there and keeps every other. */
  lemma RemovedOnce<T>(s: seq<T>, i: int)
    requires NoDuplicates(s) && 0 <= i < |s|
    ensures s[i] !in s[..i] + s[i + 1..]
    ensures forall x :: x in s && x != s[i] ==> x in s[..i] + s[i + 1..]
  {
    var r := s[..i] + s[i + 1..];
    forall k | 0 <= k < |r| ensures r[k] != s[i] {
      if k < i {
        assert r[k] == s[k];
      } else {
        assert r[k] == s[k + 1];
      }
    }
    forall x | x in s && x != s[i] ensures x in r {
      var k :| 0 <= k < |s| && s[k] == x;
      if k < i {
        assert r[k] == x;
      } else {
        assert r[k - 1] == x;
      }
    }
  }
}
