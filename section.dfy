/**
 * One section of the checklist: the text field for a custom item and the rows of the section's items,
 * shown either in subcategory groups or all together.
 */
module Section {
  import opened Wrappers
  import opened Text
  import opened Schema
  import opened Catalogue
  import opened ItemControl

  /** The item a section asks the page to add for the trimmed name. */
  function CustomItem(name: string, category: string): NewItem {
    NewItem(name, category, None, true, 1, true)
  }

  /** Whether a row is given a remove callback: only custom items are. */
  predicate RemoveCallbackGiven(item: PackingItem) {
    item.isCustom
  }

  /** Within a section a row shows the remove control exactly for a custom item. */
  lemma RemoveShownIffCustom(item: PackingItem)
    ensures ShowsRemove(item, RemoveCallbackGiven(item)) <==> item.isCustom
  {
  }

  /** No default item can be removed through a section. */
  lemma DefaultsNotRemovable()
    ensures forall c, i :: c in DefaultItems && 0 <= i < |DefaultItems[c]| ==>
      !ShowsRemove(DefaultItems[c][i], RemoveCallbackGiven(DefaultItems[c][i]))
  {
    DefaultsListed();
  }

  /** The items of one subcategory group, in list order. */
  function InGroup(items: seq<PackingItem>, sub: string): (r: seq<PackingItem>)
    ensures forall x :: x in r <==> x in items && x.subcategory == Some(sub)
    ensures forall x :: multiset(r)[x] == if x.subcategory == Some(sub) then multiset(items)[x] else 0
    decreases |items|
  {
    if |items| == 0 then []
    else
      assert items == [items[0]] + items[1..];
      if items[0].subcategory == Some(sub) then [items[0]] + InGroup(items[1..], sub)
      else InGroup(items[1..], sub)
  }

  /** Grouping keeps list order: it distributes over concatenation. */
  lemma {:induction false} InGroupConcat(s: seq<PackingItem>, t: seq<PackingItem>, sub: string)
    ensures InGroup(s + t, sub) == InGroup(s, sub) + InGroup(t, sub)
    decreases |s|
  {
    if |s| > 0 {
      assert (s + t)[0] == s[0];
      assert (s + t)[1..] == s[1..] + t;
      InGroupConcat(s[1..], t, sub);
    } else {
      assert s + t == t;
    }
  }

  /** Appending an item appends it to its own group and leaves every other group as it was. */
  lemma InGroupAppend(items: seq<PackingItem>, x: PackingItem, sub: string)
    ensures InGroup(items + [x], sub) == InGroup(items, sub) + (if x.subcategory == Some(sub) then [x] else [])
  {
    InGroupConcat(items, [x], sub);
    assert [x][1..] == [];
  }

  /** A custom item added in a section shows in none of the section's subcategory groups: every group
      holds exactly what it held before. */
  lemma CustomItemInNoGroup(cat: Catalogue, text: string, category: string, id: string, sub: string)
    requires category in cat
    ensures var after := WithCustomItem(cat, CustomItem(Trim(text), category), id);
      InGroup(after[category], sub) == InGroup(cat[category], sub)
  {
    var item := WithId(CustomItem(Trim(text), category), id);
    InGroupConcat(cat[category], [item], sub);
    assert InGroup([item], sub) == [];
  }

  /** The item a custom item becomes: the trimmed name, the section's category, checked, one of it, and
      no subcategory. */
  lemma CustomItemFields(text: string, category: string, id: string)
    requires Trim(text) != []
    ensures var item := WithId(CustomItem(Trim(text), category), id);
      && item.name == Trim(text) && item.category == category && item.id == id
      && item.checked && item.quantity == 1 && item.isCustom && item.subcategory.None?
      && ValidItem(item) && InRange(item.quantity)
      && (|item.name| > 0 && !IsSpace(item.name[0]) && !IsSpace(item.name[|item.name| - 1]))
  {
  }

  class SectionInput {
    const category: string
    /** The text of the custom item field. */
    var customItemName: string
    /** The items passed to `onAddCustomItem`, oldest first. */
    var added: seq<NewItem>

    constructor(category: string)
      ensures this.category == category && customItemName == "" && added == []
    {
      this.category := category;
      customItemName := "";
      added := [];
    }

    /** Typing into the field. */
    method SetName(text: string)
      modifies this
      ensures customItemName == text && added == old(added)
    {
      customItemName := text;
    }

    /** `handleAddCustomItem`: a name that trims to nothing adds nothing and leaves the field as it is;
        otherwise the custom item for the trimmed name is added and the field is cleared. */
    method AddCustomItem()
      modifies this
      ensures Trim(old(customItemName)) == [] ==> customItemName == old(customItemName) && added == old(added)
      ensures Trim(old(customItemName)) != [] ==>
        added == old(added) + [CustomItem(Trim(old(customItemName)), category)] && customItemName == ""
    {
      var name := Trim(customItemName);
      if name != [] {
        added := added + [CustomItem(name, category)];
        customItemName := "";
      }
    }

    /** `handleKeyPress`: Enter adds exactly as the button does; any other key does nothing. */
    method KeyPress(key: string)
      modifies this
      ensures key == "Enter" ==>
        if Trim(old(customItemName)) == [] then customItemName == old(customItemName) && added == old(added)
        else added == old(added) + [CustomItem(Trim(old(customItemName)), category)] && customItemName == ""
      ensures key != "Enter" ==> customItemName == old(customItemName) && added == old(added)
    {
      if key == "Enter" {
        AddCustomItem();
      }
    }
  }
}
