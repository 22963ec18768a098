/** The bill on the billing screen of app/billing.js: the rows already
    taken, and the price being modified in one of them. */
module BillList {
  import opened Strings
  import opened Parser
  import opened Lists

  /** `prev.slice(0, -1)`: every row but the last; nothing from nothing. */
  function Undone(items: seq<Entry>): seq<Entry> {
    items[..if items == [] then 0 else |items| - 1]
  }

  /** `price.replace(/[^\d.]/g, '')`: the ASCII digits and dots of a price,
      in order. */
  function DigitsAndDots(s: string): (r: string)
    ensures |r| <= |s|
    ensures forall c :: c in r ==> IsDigit(c) || c == '.'
    decreases |s|
  {
    if s == [] then []
    else (if IsDigit(s[0]) || s[0] == '.' then [s[0]] else []) + DigitsAndDots(s[1..])
  }

  /** The price text the Modify field writes back (`editPrice + ' rs'`). */
  function ModifiedPrice(editPrice: string): string {
    editPrice + " rs"
  }

  /** The billing screen's row state. `mode` is the constant `'list'` in the
      source, so a voice result is always appended. */
  class Bill {
    var items: seq<Entry>
    /** The row whose price is being edited (`editIndex`), if any. */
    var editIndex: Option<nat>
    /** The text in the price field while editing (`editPrice`). */
    var editPrice: string

    constructor ()
      ensures items == [] && editIndex == None && editPrice == []
    {
      items := [];
      editIndex := None;
      editPrice := [];
    }

    /** `processBillingCommand`: the rows parsed from a voice result are
        appended after the existing ones, in order. */
    method ProcessBillingCommand(text: string)
      modifies this
      ensures items == old(items) + Parse(text)
      ensures editIndex == old(editIndex) && editPrice == old(editPrice)
    {
      var parsed := ParseItemsAndPrices(text);
      items := items + parsed;
    }

    /** The Undo button: the last row is removed. */
    method Undo()
      modifies this
      ensures items == Undone(old(items))
      ensures old(items) != [] ==> items + [old(items)[|old(items)| - 1]] == old(items)
      ensures old(items) == [] ==> items == []
      ensures editIndex == old(editIndex) && editPrice == old(editPrice)
    {
      items := Undone(items);
    }

    /** A row's Delete button: `items.filter((_, i) => i !== index)`. */
    method DeleteRow(index: nat)
      modifies this
      ensures items == Without(old(items), index)
      ensures index < |old(items)| ==> items == old(items)[..index] + old(items)[index + 1..]
      ensures editIndex == old(editIndex) && editPrice == old(editPrice)
    {
      items := Without(items, index);
      WithoutMeaning(old(items), index);
    }

    /** A row's Modify button: that row is edited, its price field starting
        with the digits and dots of its price. */
    method StartModify(index: nat)
      requires index < |items|
      modifies this
      ensures items == old(items)
      ensures editIndex == Some(index)
      ensures editPrice == DigitsAndDots(items[index].price)
    {
      editIndex := Some(index);
      editPrice := DigitsAndDots(items[index].price);
    }

    /** Typing in the price field. */
    method SetEditPrice(text: string)
      modifies this
      ensures editPrice == text
      ensures items == old(items) && editIndex == old(editIndex)
    {
      editPrice := text;
    }

    /** Leaving the price field without submitting ends the edit. */
    method CancelModify()
      modifies this
      ensures editIndex == None
      ensures items == old(items) && editPrice == old(editPrice)
    {
      editIndex := None;
    }

    /** Submitting the price field: the edited row gets the typed price
        followed by ` rs`, every other row and the row's item stay, and the
        edit ends. The field is only shown on a row of the list. */
    method CommitModify()
      requires editIndex.Some? && editIndex.value < |items|
      modifies this
      ensures |items| == |old(items)|
      ensures items[old(editIndex).value] == Entry(old(items)[old(editIndex).value].item, ModifiedPrice(old(editPrice)))
      ensures forall k :: 0 <= k < |items| && k != old(editIndex).value ==> items[k] == old(items)[k]
      ensures editIndex == None && editPrice == old(editPrice)
    {
      var index := editIndex.value;
      var newItems := items;
      newItems := newItems[index := Entry(newItems[index].item, ModifiedPrice(editPrice))];
      items := newItems;
      editIndex := None;
    }
  }

  // ---------------------------------------------------------------------
  // what the updates promise

  /** Undo removes exactly the last row, and leaves an empty bill empty. */
  lemma UndoRemovesLast(items: seq<Entry>)
    ensures items == [] ==> Undone(items) == []
    ensures items != [] ==> Undone(items) + [items[|items| - 1]] == items
  {
  }

  /** The prefill keeps exactly the digits and dots. */
  lemma {:induction false} DigitsAndDotsKeeps(s: string)
    ensures forall c :: (IsDigit(c) || c == '.') ==> multiset(DigitsAndDots(s))[c] == multiset(s)[c]
    ensures forall c :: !(IsDigit(c) || c == '.') ==> c !in DigitsAndDots(s)
    decreases |s|
  {
    if s != [] {
      DigitsAndDotsKeeps(s[1..]);
      assert s == [s[0]] + s[1..];
    }
  }

  /** A string of digits and dots is its own prefill, so taking the prefill
      twice changes nothing. */
  lemma {:induction false} DigitsAndDotsOfDigits(s: string)
    requires forall c :: c in s ==> IsDigit(c) || c == '.'
    ensures DigitsAndDots(s) == s
    decreases |s|
  {
    if s != [] {
      DigitsAndDotsOfDigits(s[1..]);
      assert s == [s[0]] + s[1..];
    }
  }

  lemma DigitsAndDotsIdempotent(s: string)
    ensures DigitsAndDots(DigitsAndDots(s)) == DigitsAndDots(s)
  {
    DigitsAndDotsOfDigits(DigitsAndDots(s));
  }

  lemma {:induction false} DigitsAndDotsConcat(a: string, b: string)
    ensures DigitsAndDots(a + b) == DigitsAndDots(a) + DigitsAndDots(b)
    decreases |a|
  {
    if a == [] {
      assert a + b == b;
    } else {
      assert (a + b)[1..] == a[1..] + b;
      DigitsAndDotsConcat(a[1..], b);
    }
  }

  /** A numeral is written with digits and at most one dot. */
  lemma NumeralChars(s: string)
    requires IsNumeral(s)
    ensures forall c :: c in s ==> IsDigit(c) || c == '.'
  {
    var n := DigitRun(s);
    forall i | 0 <= i < |s| ensures IsDigit(s[i]) || s[i] == '.' {
      if i < n {
        assert s[..n][i] == s[i];
      } else if i > n {
        assert s[n + 1..][i - n - 1] == s[i];
      }
    }
  }

  /** Pressing Modify on a price the parser wrote (`ParseShape` says every
      row's price has this form) pre-fills the field with exactly the number
      after the rupee sign. */
  lemma PrefillOfPriceText(p: string)
    requires |p| >= 2 && p[0] == RupeeSign && IsNumeral(p[1..])
    ensures DigitsAndDots(p) == p[1..]
  {
    assert p == [p[0]] + p[1..];
    DigitsAndDotsConcat([p[0]], p[1..]);
    assert DigitsAndDots([p[0]]) == [];
    NumeralChars(p[1..]);
    DigitsAndDotsOfDigits(p[1..]);
  }

  /** Committing a typed price and pressing Modify again gives back the
      typed price when it holds only digits and dots. */
  lemma ModifyRoundTrip(editPrice: string)
    requires forall c :: c in editPrice ==> IsDigit(c) || c == '.'
    ensures DigitsAndDots(ModifiedPrice(editPrice)) == editPrice
  {
    DigitsAndDotsConcat(editPrice, " rs");
    DigitsAndDotsOfDigits(editPrice);
  }
}
