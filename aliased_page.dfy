/**
 * The item collection as the page actually holds it: one array per category, where the module-level
 * default catalogue's arrays are the very arrays the page starts with, and an update writes into the
 * array it finds (the record is copied, the arrays are not). Clearing the page reinstalls the default
 * arrays, with whatever updates were written into them.
 *
 * The arrays are held in the order of `Categories`: entry `i` is the array of category `Categories[i]`.
 */
module AliasedPage {
  import opened Wrappers
  import opened Schema
  import opened Catalogue

  class AliasedPage {
    /** The module-level default catalogue. */
    const defaults: seq<array<PackingItem>>
    /** The page's item state. */
    var items: seq<array<PackingItem>>

    /** Both records have one entry per category, each category with its own array. */
    ghost predicate Valid()
      reads this
    {
      && |defaults| == |Categories| && |items| == |Categories|
      && (forall i, j :: 0 <= i < j < |items| ==> items[i] != items[j])
      && (forall i, j :: 0 <= i < j < |defaults| ==> defaults[i] != defaults[j])
    }

    /** The page as first shown: its state is the default arrays themselves. */
    constructor()
      ensures Valid() && items == defaults
      ensures forall i :: 0 <= i < |items| ==> fresh(items[i]) && items[i][..] == DefaultItems[Categories[i]]
    {
      var clothing := Allocate(ClothingDefaults);
      var toiletries := Allocate(ToiletriesDefaults);
      var electronics := Allocate(ElectronicsDefaults);
      var documents := Allocate(DocumentsDefaults);
      var additional := Allocate(AdditionalDefaults);
      var s := [clothing, toiletries, electronics, documents, additional];
      defaults := s;
      items := s;
    }

    /** `handleUpdateItem` as written: the first item with the id in each category is overwritten inside
        the category's array. The record keeps the same arrays, so the defaults see the write too. */
    method UpdateItem(id: string, u: ItemUpdate)
      requires Valid()
      modifies set i | 0 <= i < |items| :: items[i]
      ensures Valid() && items == old(items)
      ensures forall i :: 0 <= i < |items| ==> items[i][..] == UpdateFirst(old(items[i][..]), id, u)
    {
      for i := 0 to |items|
        invariant forall j :: 0 <= j < |items| ==>
          items[j][..] == if j < i then UpdateFirst(old(items[j][..]), id, u) else old(items[j][..])
      {
        var a := items[i];
        var index := FindIndex(a[..], id);
        if index != -1 {
          a[index] := Merge(a[index], u);
        }
      }
    }

    /** `handleClearAll` as written: the default arrays are installed again. */
    method ClearAll()
      requires Valid()
      modifies this
      ensures Valid() && items == defaults
    {
      items := defaults;
    }
  }

  /** A fresh array holding the given items. */
  method Allocate(s: seq<PackingItem>) returns (a: array<PackingItem>)
    ensures fresh(a) && a[..] == s
  {
    a := new PackingItem[|s|](i requires 0 <= i < |s| => s[i]);
  }

  /** Checking the camera in the default electronics leaves the camera checked. */
  lemma CameraChecked()
    ensures var after := UpdateFirst(ElectronicsDefaults, "camera", NoChange.(checked := Some(true)));
      |after| == 6 && after[2].checked
    ensures !ElectronicsDefaults[2].checked && ElectronicsDefaults[2].id == "camera"
  {
    assert FindIndex(ElectronicsDefaults, "camera") == 2 by {
      assert ElectronicsDefaults[1..][1..] == ElectronicsDefaults[2..];
    }
  }

  /** Checking the camera on a fresh page and then clearing all leaves the camera checked, although the
      default catalogue lists it unchecked. */
  method CameraSurvivesClearAll() returns (checkedAfterClear: bool)
    ensures checkedAfterClear
    ensures !DefaultItems["electronics"][2].checked && DefaultItems["electronics"][2].id == "camera"
  {
    var page := new AliasedPage();
    CameraChecked();
    assert Categories[2] == "electronics";
    page.UpdateItem("camera", NoChange.(checked := Some(true)));
    page.ClearAll();
    checkedAfterClear := page.items[2][2].checked;
  }
}
