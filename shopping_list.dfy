/** The shopping list of app/CreateListScreen.js: the items, and the text
    in the input box. */
module ShoppingList {
  import opened Strings
  import opened Lists

  /** An entry `addItem` can make: non-empty, with no whitespace at either
      end. */
  predicate IsListItem(s: string) {
    s != [] && IsTrimmed(s)
  }

  predicate AllListItems(list: seq<string>) {
    forall k :: 0 <= k < |list| ==> IsListItem(list[k])
  }

  /** The text `addItem` adds for an input, if it adds anything
      (`input.trim()`, when that is not empty). */
  function ItemFromInput(input: string): (r: Option<string>)
    ensures r.Some? <==> !AllSpace(input)
    ensures r.Some? ==> IsListItem(r.value) && r.value == Trim(input)
  {
    TrimEmptyIff(input);
    TrimIsTrimmed(input);
    var t := Trim(input);
    if t != [] then Some(t) else None
  }

  class CreateList {
    var list: seq<string>
    var input: string

    constructor ()
      ensures list == [] && input == []
    {
      list := [];
      input := [];
    }

    /** Typing, or a speech result, sets the input box. */
    method SetInput(text: string)
      modifies this
      ensures input == text && list == old(list)
    {
      input := text;
    }

    /** `addItem`: non-blank input is trimmed and appended, and the box is
        cleared; blank input changes nothing. */
    method AddItem()
      modifies this
      ensures !AllSpace(old(input)) ==> list == old(list) + [Trim(old(input))] && input == []
      ensures AllSpace(old(input)) ==> list == old(list) && input == old(input)
      ensures AllListItems(old(list)) ==> AllListItems(list)
    {
      var t := ItemFromInput(input);
      if t.Some? {
        list := list + [t.value];
        input := [];
      }
    }

    /** `deleteItem`: `list.filter((_, i) => i !== index)`. */
    method DeleteItem(index: int)
      modifies this
      ensures list == Without(old(list), index)
      ensures 0 <= index < |old(list)| ==> list == old(list)[..index] + old(list)[index + 1..]
      ensures !(0 <= index < |old(list)|) ==> list == old(list)
      ensures AllListItems(old(list)) ==> AllListItems(list)
      ensures input == old(input)
    {
      WithoutMeaning(list, index);
      list := Without(list, index);
    }

    /** `clearList`. */
    method ClearList()
      modifies this
      ensures list == [] && input == old(input)
    {
      list := [];
    }

    /** `editItem`: a copy of the list with position `index` replaced. */
    method EditItem(index: int, newValue: string)
      requires 0 <= index < |list|
      modifies this
      ensures |list| == |old(list)| && list[index] == newValue
      ensures forall k :: 0 <= k < |list| && k != index ==> list[k] == old(list)[k]
      ensures input == old(input)
    {
      var updated := list;
      updated := updated[index := newValue];
      list := updated;
    }
  }

  /** Deleting a position keeps every other entry, in order: the entries
      before it stay where they are and the ones after move up by one. */
  lemma DeleteKeepsOthers(list: seq<string>, index: int)
    requires 0 <= index < |list|
    ensures |Without(list, index)| == |list| - 1
    ensures forall k :: 0 <= k < index ==> Without(list, index)[k] == list[k]
    ensures forall k :: index <= k < |list| - 1 ==> Without(list, index)[k] == list[k + 1]
  {
    WithoutMeaning(list, index);
  }

  /** Deleting keeps a list of proper entries proper. */
  lemma DeleteKeepsListItems(list: seq<string>, index: int)
    requires AllListItems(list)
    ensures AllListItems(Without(list, index))
  {
    WithoutMeaning(list, index);
    if 0 <= index < |list| {
      var r := Without(list, index);
      forall k | 0 <= k < |r| ensures IsListItem(r[k]) {
        if k < index {
          assert r[k] == list[k];
        } else {
          assert r[k] == list[k + 1];
        }
      }
    }
  }
}
