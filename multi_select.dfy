/**
 * Multi-select over a list: the selected ids, kept as a set that remembers
 * insertion order (as a JavaScript `Set` does), and the multi-select mode
 * that a long press toggles.
 */
module MultiSelect {
  import opened Text

  /** `set.delete(x)`: the other ids, in their order. */
  function Without(s: seq<string>, x: string): (r: seq<string>)
    ensures x !in r
    ensures forall y :: y in r <==> y in s && y != x
    ensures x !in s ==> r == s
    ensures NoDuplicates(s) ==> NoDuplicates(r)
  {
    if s == [] then []
    else
      var rest := Without(s[1..], x);
      assert forall y :: y in s[1..] ==> y in s;
      KeepHead(s, rest);
      if s[0] == x then rest else [s[0]] + rest
  }

  /** Keeping the head of a duplicate-free list in front of a duplicate-free selection of its tail keeps it duplicate-free. */
  lemma KeepHead(s: seq<string>, rest: seq<string>)
    requires s != [] && forall y :: y in rest ==> y in s[1..]
    ensures NoDuplicates(s) && NoDuplicates(rest) ==> NoDuplicates([s[0]] + rest)
  {
    if NoDuplicates(s) && NoDuplicates(rest) {
      assert forall i :: 0 <= i < |s[1..]| ==> s[1..][i] == s[i + 1];
      assert s[0] !in s[1..];
      ConsNoDuplicates(s[0], rest);
    }
  }

  lemma ConsNoDuplicates(x: string, t: seq<string>)
    requires NoDuplicates(t) && x !in t
    ensures NoDuplicates([x] + t)
  {
    forall i, j | 0 <= i < j < |[x] + t|
      ensures ([x] + t)[i] != ([x] + t)[j]
    {
      assert ([x] + t)[j] == t[j - 1];
      if i > 0 {
        assert ([x] + t)[i] == t[i - 1];
      }
    }
  }

  /** Selecting an id that is selected deselects it; an unselected one joins at the end. */
  function Toggle(s: seq<string>, x: string): (r: seq<string>)
    ensures x in r <==> x !in s
    ensures forall y :: y != x ==> (y in r <==> y in s)
    ensures x !in s ==> r == s + [x]
    ensures NoDuplicates(s) ==> NoDuplicates(r)
  {
    if x in s then Without(s, x) else s + [x]
  }

  lemma {:induction false} WithoutLast(s: seq<string>, x: string)
    requires x !in s
    ensures Without(s + [x], x) == s
  {
    if s == [] {
      assert [x][1..] == [];
    } else {
      assert (s + [x])[1..] == s[1..] + [x];
      WithoutLast(s[1..], x);
    }
  }

  /**
   * Toggling twice restores the selection as a set; for an id that was not
   * selected it restores the order too. (Deselecting and reselecting an id
   * moves it to the end of the insertion order.)
   */
  lemma ToggleTwice(s: seq<string>, x: string)
    ensures forall y :: y in Toggle(Toggle(s, x), x) <==> y in s
    ensures x !in s ==> Toggle(Toggle(s, x), x) == s
  {
    if x !in s {
      WithoutLast(s, x);
    }
  }

  class State {
    /** The selected ids, oldest first. */
    var selected: seq<string>
    var isMultiSelectMode: bool
    /** How many times a click invoked the navigation callback. */
    var navigations: nat

    /** A set never holds an id twice. */
    predicate Valid()
      reads this
    {
      NoDuplicates(selected)
    }

    constructor()
      ensures Valid() && selected == [] && !isMultiSelectMode && navigations == 0
    {
      selected := [];
      isMultiSelectMode := false;
      navigations := 0;
    }

    function IsItemSelected(itemId: string): (r: bool)
      reads this
      ensures r <==> itemId in selected
    {
      itemId in selected
    }

    /** `handleItemClick`: toggles in multi-select mode; otherwise runs the navigation callback when one is given. */
    method HandleItemClick(itemId: string, hasOnNavigate: bool)
      requires Valid()
      modifies this`selected, this`navigations
      ensures Valid()
      ensures isMultiSelectMode ==> selected == Toggle(old(selected), itemId) && navigations == old(navigations)
      ensures !isMultiSelectMode ==>
        selected == old(selected) && navigations == old(navigations) + (if hasOnNavigate then 1 else 0)
    {
      if isMultiSelectMode {
        HandleCheckboxClick(itemId);
      } else if hasOnNavigate {
        navigations := navigations + 1;
      }
    }

    /** `handleCheckboxClick`: always toggles, whatever the mode. */
    method HandleCheckboxClick(itemId: string)
      requires Valid()
      modifies this`selected
      ensures Valid() && selected == Toggle(old(selected), itemId)
    {
      if itemId in selected {
        selected := Without(selected, itemId);
      } else {
        selected := selected + [itemId];
      }
    }

    /**
     * `handleItemLongPress`: flips the mode; entering it selects the item
     * (at the end, unless already selected), leaving it clears the selection.
     */
    method HandleItemLongPress(itemId: string)
      requires Valid()
      modifies this`selected, this`isMultiSelectMode
      ensures Valid() && isMultiSelectMode == !old(isMultiSelectMode)
      ensures isMultiSelectMode ==> selected == old(selected) + (if itemId in old(selected) then [] else [itemId])
      ensures isMultiSelectMode ==> itemId in selected
      ensures !isMultiSelectMode ==> selected == []
    {
      isMultiSelectMode := !isMultiSelectMode;
      if isMultiSelectMode {
        if itemId !in selected {
          selected := selected + [itemId];
        }
      } else {
        selected := [];
      }
    }

    /** `clearSelection`: nothing selected and out of multi-select mode. */
    method ClearSelection()
      modifies this`selected, this`isMultiSelectMode
      ensures Valid() && selected == [] && !isMultiSelectMode
    {
      selected := [];
      isMultiSelectMode := false;
    }

    /** `getSelectedIds`: the selected ids without repeats, in the order they were selected. */
    method GetSelectedIds() returns (ids: seq<string>)
      requires Valid()
      ensures NoDuplicates(ids)
      ensures forall x :: x in ids <==> IsItemSelected(x)
      ensures ids == selected
    {
      ids := selected;
    }
  }
}
