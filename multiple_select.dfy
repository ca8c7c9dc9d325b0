/**
 * The value logic of the filters' multiple-select component: a list of items,
 * each a value with a `checked` flag, shown in an embedded grid (the items
 * box) whose rows are those same item objects.
 */
module MultipleSelect {
  import opened Wrappers
  import opened Sequences

  /** One option of the list: its value and whether it is selected. */
  class Item<V> {
    const value: V
    var checked: bool

    constructor (value: V, checked: bool)
      ensures this.value == value && this.checked == checked
    {
      this.value := value;
      this.checked := checked;
    }
  }

  /** The embedded grid's data: the rows it shows, which are item objects. */
  class ItemsBox<V> {
    var sourceData: seq<Item<V>>

    constructor (data: seq<Item<V>>)
      ensures sourceData == data
    {
      sourceData := data;
    }

    /** `loadData`: show these rows instead. */
    method LoadData(data: seq<Item<V>>)
      modifies this
      ensures sourceData == data
    {
      sourceData := data;
    }
  }

  /** One entry of the batch given to `setSourceDataAtCell`: row index and the new `checked`. */
  datatype Change = Change(row: nat, checked: bool)

  /** The values of the checked items, in item order. */
  function CheckedValues<V>(items: seq<Item<V>>): (r: seq<V>)
    reads items
    ensures |r| <= |items|
  {
    if items == [] then []
    else
      var last := items[|items| - 1];
      CheckedValues(items[..|items| - 1]) + (if last.checked then [last.value] else [])
  }

  /** The values of all items, in item order. */
  function Values<V>(items: seq<Item<V>>): (r: seq<V>)
    ensures |r| == |items| && forall i :: 0 <= i < |items| ==> r[i] == items[i].value
  {
    seq(|items|, i requires 0 <= i < |items| => items[i].value)
  }

  /** The checked values are all the values exactly when every item is checked, and then they are in order. */
  lemma {:induction false} CheckedValuesAll<V>(items: seq<Item<V>>)
    ensures |CheckedValues(items)| == |items| <==> forall i :: 0 <= i < |items| ==> items[i].checked
    ensures (forall i :: 0 <= i < |items| ==> items[i].checked) ==> CheckedValues(items) == Values(items)
    decreases |items|
  {
    if items != [] {
      var init := items[..|items| - 1];
      CheckedValuesAll(init);
      assert forall i :: 0 <= i < |init| ==> init[i] == items[i];
      if forall i :: 0 <= i < |items| ==> items[i].checked {
        assert Values(items) == Values(init) + [items[|items| - 1].value];
      }
    }
  }

  /** No checked item, no value. */
  lemma {:induction false} CheckedValuesNone<V>(items: seq<Item<V>>)
    requires forall i :: 0 <= i < |items| ==> !items[i].checked
    ensures CheckedValues(items) == []
    decreases |items|
  {
    if items != [] {
      CheckedValuesNone(items[..|items| - 1]);
    }
  }

  /** Every checked value comes from a checked item, at or after the position it has in the result. */
  lemma {:induction false} CheckedValuesFromChecked<V>(items: seq<Item<V>>, j: nat)
    requires j < |CheckedValues(items)|
    ensures exists i :: j <= i < |items| && items[i].checked && items[i].value == CheckedValues(items)[j]
    decreases |items|
  {
    var init := items[..|items| - 1];
    var last := items[|items| - 1];
    if j < |CheckedValues(init)| {
      CheckedValuesFromChecked(init, j);
      var i :| j <= i < |init| && init[i].checked && init[i].value == CheckedValues(init)[j];
      assert items[i] == init[i];
    } else {
      assert last.checked && CheckedValues(items)[j] == last.value;
    }
  }

  /** `itemsToValue`: collect the values of the checked items, in order. */
  method ItemsToValue<V>(availableItems: seq<Item<V>>) returns (values: seq<V>)
    ensures values == CheckedValues(availableItems)
  {
    values := [];
    for index := 0 to |availableItems|
      invariant values == CheckedValues(availableItems[..index])
    {
      assert availableItems[..index + 1][..index] == availableItems[..index];
      if availableItems[index].checked {
        values := values + [availableItems[index].value];
      }
    }
    assert availableItems[..|availableItems|] == availableItems;
  }

  /**
   * `valueToItems`: set every item's `checked` to whether the selected value
   * list holds its value (`isSelected` is that membership test), in place, and
   * answer the same items in the same order.
   */
  method ValueToItems<V>(availableItems: seq<Item<V>>, isSelected: V -> bool) returns (r: seq<Item<V>>)
    modifies availableItems
    ensures r == availableItems
    ensures forall i :: 0 <= i < |r| ==> r[i].checked == isSelected(r[i].value)
  {
    for index := 0 to |availableItems|
      invariant forall k :: 0 <= k < index ==> availableItems[k].checked == isSelected(availableItems[k].value)
    {
      availableItems[index].checked := isSelected(availableItems[index].value);
    }
    r := availableItems;
  }

  /** `s` occurs in `text` starting at position `i`. */
  predicate OccursAt(text: string, s: string, i: int) {
    0 <= i <= |text| - |s| && text[i..i + |s|] == s
  }

  /** `s` occurs in `text` (`text.indexOf(s) >= 0`). */
  predicate Contains(text: string, s: string) {
    exists i :: 0 <= i <= |text| - |s| && OccursAt(text, s, i)
  }

  /** The items whose lowercased text contains `query`, in order. */
  function Matching<V>(items: seq<Item<V>>, query: string, lower: string -> string, text: V -> string): (r: seq<Item<V>>)
    ensures |r| <= |items|
    ensures forall j :: 0 <= j < |r| ==> r[j] in items && Contains(lower(text(r[j].value)), query)
    ensures forall i :: 0 <= i < |items| && Contains(lower(text(items[i].value)), query) ==> items[i] in r
  {
    if items == [] then []
    else if Contains(lower(text(items[0].value)), query) then [items[0]] + Matching(items[1..], query, lower, text)
    else Matching(items[1..], query, lower, text)
  }

  /** Every text contains the empty query, so filtering by it keeps the whole list. */
  lemma {:induction false} MatchingEmptyQuery<V>(items: seq<Item<V>>, lower: string -> string, text: V -> string)
    ensures Matching(items, "", lower, text) == items
    decreases |items|
  {
    if items != [] {
      var t := lower(text(items[0].value));
      assert OccursAt(t, "", 0);
      MatchingEmptyQuery(items[1..], lower, text);
    }
  }

  /** Keeping the matching items keeps their relative order: the result is a subsequence. */
  lemma {:induction false} MatchingIsSubsequence<V>(items: seq<Item<V>>, query: string, lower: string -> string, text: V -> string)
    ensures IsSubsequence(Matching(items, query, lower, text), items)
    decreases |items|
  {
    if items != [] {
      MatchingIsSubsequence(items[1..], query, lower, text);
    }
  }

  /**
   * What `onInput` loads into the items box for a typed query: its empty-query
   * shortcut agrees with the general filter.
   */
  function Filtered<V>(items: seq<Item<V>>, query: string, lower: string -> string, text: V -> string): (r: seq<Item<V>>)
    ensures r == Matching(items, lower(query), lower, text)
  {
    var value := lower(query);
    if value == "" then
      MatchingEmptyQuery(items, lower, text);
      items
    else Matching(items, value, lower, text)
  }

  /** Mark every row, recording one change per row, in row order. */
  method MarkAll<V>(rows: seq<Item<V>>, checked: bool) returns (changes: seq<Change>)
    modifies rows
    ensures forall i :: 0 <= i < |rows| ==> rows[i].checked == checked
    ensures |changes| == |rows| && forall i :: 0 <= i < |rows| ==> changes[i] == Change(i, checked)
  {
    changes := [];
    for rowIndex := 0 to |rows|
      invariant forall k :: 0 <= k < rowIndex ==> rows[k].checked == checked
      invariant |changes| == rowIndex && forall k :: 0 <= k < rowIndex ==> changes[k] == Change(k, checked)
    {
      rows[rowIndex].checked := checked;
      changes := changes + [Change(rowIndex, checked)];
    }
  }

  class MultipleSelectUI<V> {
    /** `items`: the available options; `None` once destroyed. */
    var items: Option<seq<Item<V>>>
    /** `itemsBox`: the embedded grid, `null` until built and after destroy. */
    var itemsBox: ItemsBox?<V>

    constructor ()
      ensures items == Some([]) && itemsBox == null
    {
      items := Some([]);
      itemsBox := null;
    }

    /** `setItems`: replace the list; a built items box shows the new list. */
    method SetItems(newItems: seq<Item<V>>)
      modifies this, itemsBox
      ensures items == Some(newItems) && itemsBox == old(itemsBox)
      ensures itemsBox != null ==> itemsBox.sourceData == newItems
    {
      items := Some(newItems);
      if itemsBox != null {
        itemsBox.LoadData(newItems);
      }
    }

    /** `getItems`: a copy of the list; being a value, later changes to it leave `items` alone. */
    method GetItems() returns (r: seq<Item<V>>)
      requires items.Some?
      ensures r == items.value
    {
      r := items.value;
    }

    /** `getValue`: the values of the checked items, in item order. */
    method GetValue() returns (values: seq<V>)
      requires items.Some?
      ensures values == CheckedValues(items.value)
    {
      values := ItemsToValue(items.value);
    }

    /** `isSelectedAllValues`: true exactly when every item is checked. */
    method IsSelectedAllValues() returns (all: bool)
      requires items.Some?
      ensures all <==> forall i :: 0 <= i < |items.value| ==> items.value[i].checked
    {
      var value := GetValue();
      all := |items.value| == |value|;
      CheckedValuesAll(items.value);
    }

    /**
     * `onInput`: show the items whose lowercased text contains the lowercased
     * query, in order; an empty query shows them all. `lower` is the locale's
     * lowercasing and `text` the string form of a value.
     */
    method OnInput(query: string, lower: string -> string, text: V -> string)
      requires items.Some? && itemsBox != null
      modifies itemsBox
      ensures itemsBox.sourceData == Filtered(items.value, query, lower, text)
      ensures forall j :: 0 <= j < |itemsBox.sourceData| ==>
        itemsBox.sourceData[j] in items.value && Contains(lower(text(itemsBox.sourceData[j].value)), lower(query))
      ensures forall i :: 0 <= i < |items.value| && Contains(lower(text(items.value[i].value)), lower(query)) ==>
        items.value[i] in itemsBox.sourceData
    {
      var value := lower(query);
      var filteredItems: seq<Item<V>>;
      if value == "" {
        filteredItems := items.value;
      } else {
        filteredItems := Matching(items.value, value, lower, text);
      }
      assert filteredItems == Filtered(items.value, query, lower, text);
      itemsBox.LoadData(filteredItems);
    }

    /** "Select all": check every row of the items box, one change per row. */
    method OnSelectAllClick() returns (changes: seq<Change>)
      requires itemsBox != null
      modifies itemsBox.sourceData
      ensures forall i :: 0 <= i < |itemsBox.sourceData| ==> itemsBox.sourceData[i].checked
      ensures |changes| == |itemsBox.sourceData|
      ensures forall i :: 0 <= i < |changes| ==> changes[i] == Change(i, true)
    {
      changes := MarkAll(itemsBox.sourceData, true);
    }

    /** "Clear": uncheck every row of the items box, one change per row. */
    method OnClearAllClick() returns (changes: seq<Change>)
      requires itemsBox != null
      modifies itemsBox.sourceData
      ensures forall i :: 0 <= i < |itemsBox.sourceData| ==> !itemsBox.sourceData[i].checked
      ensures |changes| == |itemsBox.sourceData|
      ensures forall i :: 0 <= i < |changes| ==> changes[i] == Change(i, false)
    {
      changes := MarkAll(itemsBox.sourceData, false);
    }

    /** `destroy`: drop the items box and the list. */
    method Destroy()
      modifies this
      ensures items == None && itemsBox == null
    {
      itemsBox := null;
      items := None;
    }
  }

  /** When the items box shows the whole list, "Select all" makes the value every item's value. */
  method SelectAllSelectsEverything<V>(ui: MultipleSelectUI<V>) returns (values: seq<V>)
    requires ui.items.Some? && ui.itemsBox != null && ui.itemsBox.sourceData == ui.items.value
    modifies ui.items.value
    ensures values == Values(ui.items.value)
  {
    var changes := ui.OnSelectAllClick();
    values := ui.GetValue();
    CheckedValuesAll(ui.items.value);
  }
}
