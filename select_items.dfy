// tomviz's "select items" dialog: a list of item names, one check box per
// item, read back as the checked items or as the list of check states.

module SelectItems {

  /** The items whose flag is set, in their original order. */
  function Chosen(items: seq<string>, flags: seq<bool>): (r: seq<string>)
    requires |items| == |flags|
  {
    if |items| == 0 then []
    else (if flags[0] then [items[0]] else []) + Chosen(items[1..], flags[1..])
  }

  /** How many flags are set. */
  function CountSet(flags: seq<bool>): (n: nat)
    ensures n <= |flags|
  {
    if |flags| == 0 then 0 else (if flags[0] then 1 else 0) + CountSet(flags[1..])
  }

  /** Chosen keeps exactly the checked items: one per set flag, and x is among them iff some checked item is x. */
  lemma {:induction false} ChosenSpec(items: seq<string>, flags: seq<bool>)
    requires |items| == |flags|
    ensures |Chosen(items, flags)| == CountSet(flags)
    ensures forall x :: x in Chosen(items, flags) <==> exists i :: 0 <= i < |items| && flags[i] && items[i] == x
    decreases |items|
  {
    if |items| > 0 {
      ChosenSpec(items[1..], flags[1..]);
      forall x
        ensures x in Chosen(items, flags) <==> exists i :: 0 <= i < |items| && flags[i] && items[i] == x
      {
        if x in Chosen(items[1..], flags[1..]) {
          var i :| 0 <= i < |items[1..]| && flags[1..][i] && items[1..][i] == x;
          assert flags[i + 1] && items[i + 1] == x;
        }
        if exists i :: 0 <= i < |items| && flags[i] && items[i] == x {
          var i :| 0 <= i < |items| && flags[i] && items[i] == x;
          if i > 0 {
            assert flags[1..][i - 1] && items[1..][i - 1] == x;
          }
        }
      }
    }
  }

  /** Chosen keeps the original order: every checked item is followed by the checked items after it. */
  lemma {:induction false} ChosenSplit(items: seq<string>, flags: seq<bool>, k: nat)
    requires |items| == |flags| && k <= |items|
    ensures Chosen(items, flags) == Chosen(items[..k], flags[..k]) + Chosen(items[k..], flags[k..])
    decreases k
  {
    if k > 0 {
      ChosenSplit(items[1..], flags[1..], k - 1);
      assert items[1..][..k - 1] == items[..k][1..] && flags[1..][..k - 1] == flags[..k][1..];
      assert items[1..][k - 1..] == items[k..] && flags[1..][k - 1..] == flags[k..];
    } else {
      assert items[k..] == items && flags[k..] == flags;
    }
  }

  /** With every box checked all items are chosen; with none, none. */
  lemma {:induction false} ChosenExtremes(items: seq<string>, flags: seq<bool>)
    requires |items| == |flags|
    ensures (forall i :: 0 <= i < |flags| ==> flags[i]) ==> Chosen(items, flags) == items
    ensures (forall i :: 0 <= i < |flags| ==> !flags[i]) ==> Chosen(items, flags) == []
    decreases |items|
  {
    if |items| > 0 {
      ChosenExtremes(items[1..], flags[1..]);
      assert items == [items[0]] + items[1..];
      if forall i :: 0 <= i < |flags| ==> flags[i] {
        assert forall i :: 0 <= i < |flags[1..]| ==> flags[1..][i] by {
          forall i | 0 <= i < |flags[1..]| ensures flags[1..][i] {
            assert flags[1..][i] == flags[i + 1];
          }
        }
      }
      if forall i :: 0 <= i < |flags| ==> !flags[i] {
        assert forall i :: 0 <= i < |flags[1..]| ==> !flags[1..][i] by {
          forall i | 0 <= i < |flags[1..]| ensures !flags[1..][i] {
            assert flags[1..][i] == flags[i + 1];
          }
        }
      }
    }
  }

  class SelectItemsDialog {
    const items: seq<string>
    /** The check state of each item's box. */
    const checked: array<bool>

    ghost predicate Valid()
      reads this
    {
      checked.Length == |items|
    }

    /** One unchecked box per item. */
    constructor (names: seq<string>)
      ensures Valid() && items == names
      ensures forall i :: 0 <= i < checked.Length ==> !checked[i]
      ensures fresh(checked)
    {
      items := names;
      checked := new bool[|names|](i => false);
    }

    /** selectedItems: the checked items in their original order. */
    method SelectedItems() returns (selected: seq<string>)
      requires Valid()
      ensures selected == Chosen(items, checked[..])
    {
      selected := [];
      for i := 0 to checked.Length
        invariant selected == Chosen(items[..i], checked[..i])
      {
        ChosenSplit(items[..i + 1], checked[..i + 1], i);
        assert items[..i + 1][..i] == items[..i] && checked[..i + 1][..i] == checked[..i];
        assert items[..i + 1][i..] == [items[i]] && checked[..i + 1][i..] == [checked[i]];
        if checked[i] {
          selected := selected + [items[i]];
        }
      }
      assert items[..checked.Length] == items && checked[..checked.Length] == checked[..];
    }

    /** selections: one check state per item, in order. */
    method Selections() returns (s: seq<bool>)
      requires Valid()
      ensures |s| == |items|
      ensures forall i :: 0 <= i < |s| ==> s[i] == checked[i]
    {
      s := [];
      for i := 0 to checked.Length
        invariant |s| == i
        invariant forall j :: 0 <= j < i ==> s[j] == checked[j]
      {
        s := s + [checked[i]];
      }
    }

    /** setSelections: a list of the wrong size is refused; otherwise each box takes its state. */
    method SetSelections(s: seq<bool>)
      requires Valid()
      modifies checked
      ensures Valid()
      ensures |s| != |items| ==> checked[..] == old(checked[..])
      ensures |s| == |items| ==> checked[..] == s
    {
      if |s| != |items| {
        return;
      }
      for i := 0 to |s|
        invariant forall j :: 0 <= j < i ==> checked[j] == s[j]
        invariant forall j :: i <= j < checked.Length ==> checked[j] == old(checked[j])
      {
        checked[i] := s[i];
      }
    }
  }

  /** After a size-matching setSelections(s), selections() gives back s and selectedItems() the items s checks. */
  method SetThenRead(dialog: SelectItemsDialog, s: seq<bool>) returns (back: seq<bool>, selected: seq<string>)
    requires dialog.Valid() && |s| == |dialog.items|
    modifies dialog.checked
    ensures back == s
    ensures selected == Chosen(dialog.items, s)
  {
    dialog.SetSelections(s);
    back := dialog.Selections();
    selected := dialog.SelectedItems();
  }
}
