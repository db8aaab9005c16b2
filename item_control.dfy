/**
 * One row of the checklist: the checkbox, the quantity stepper with its typed field, and the remove
 * control. The row keeps its own copy of the quantity, and reports every change to the page as a
 * partial item update; the updates reported so far are a sequence, newest last.
 */
module ItemControl {
  import opened Wrappers
  import opened Schema
  import opened Catalogue

  /** The largest quantity a row accepts. */
  const MaxQuantity := 99

  predicate InRange(n: int) { 0 <= n <= MaxQuantity }

  /** `{ quantity: n }` */
  function QuantityOnly(n: int): ItemUpdate {
    NoChange.(quantity := Some(n))
  }

  /** `{ checked }` */
  function CheckedOnly(b: bool): ItemUpdate {
    NoChange.(checked := Some(b))
  }

  /** A quantity report changes the quantity and nothing else; a checkbox report the checked flag and
      nothing else. */
  lemma ReportsTouchOneField(item: PackingItem, n: int, b: bool)
    ensures Merge(item, QuantityOnly(n)) == item.(quantity := n)
    ensures Merge(item, CheckedOnly(b)) == item.(checked := b)
  {
  }

  /** Applying reported quantities to the page keeps every item valid. */
  lemma ReportedQuantityKeepsValid(cat: Catalogue, id: string, n: int)
    requires AllValid(cat) && InRange(n)
    ensures AllValid(Updated(cat, id, QuantityOnly(n)))
  {
    UpdatedKeepsValid(cat, id, QuantityOnly(n));
  }

  /** `parseInt(text) || 0`, with `None` for text that is not a number. */
  function TypedQuantity(parsed: Option<int>): int {
    parsed.GetOr(0)
  }

  /** The remove control is shown for a custom item when the row was given a remove callback. */
  predicate ShowsRemove(item: PackingItem, hasOnRemove: bool) {
    item.isCustom && hasOnRemove
  }

  class ItemRow {
    const item: PackingItem
    /** The row's own quantity. */
    var quantity: int
    /** The updates passed to `onUpdate`, oldest first. */
    var reported: seq<ItemUpdate>

    constructor(item: PackingItem)
      ensures this.item == item && quantity == item.quantity && reported == []
    {
      this.item := item;
      quantity := item.quantity;
      reported := [];
    }

    /** `handleQuantityChange`: a quantity in 0..99 is taken and reported; any other is ignored. */
    method ChangeQuantity(n: int)
      modifies this
      ensures InRange(n) ==> quantity == n && reported == old(reported) + [QuantityOnly(n)]
      ensures !InRange(n) ==> quantity == old(quantity) && reported == old(reported)
    {
      if 0 <= n && n <= MaxQuantity {
        quantity := n;
        reported := reported + [QuantityOnly(n)];
      }
    }

    /** The minus button; at 0 it does nothing. */
    method Decrease()
      modifies this
      ensures old(quantity) == 0 ==> quantity == 0 && reported == old(reported)
      ensures InRange(old(quantity) - 1) ==>
        quantity == old(quantity) - 1 && reported == old(reported) + [QuantityOnly(quantity)]
    ensures !InRange(old(quantity) - 1) ==> quantity == old(quantity) && reported == old(reported)
    {
      ChangeQuantity(quantity - 1);
    }

    /** The plus button; at 99 it does nothing. */
    method Increase()
      modifies this
      ensures old(quantity) == MaxQuantity ==> quantity == MaxQuantity && reported == old(reported)
      ensures InRange(old(quantity) + 1) ==>
        quantity == old(quantity) + 1 && reported == old(reported) + [QuantityOnly(quantity)]
    ensures !InRange(old(quantity) + 1) ==> quantity == old(quantity) && reported == old(reported)
    {
      ChangeQuantity(quantity + 1);
    }

    /** The typed field: text that is not a number counts as 0. */
    method TypeQuantity(parsed: Option<int>)
      modifies this
      ensures var n := TypedQuantity(parsed);
        if InRange(n) then quantity == n && reported == old(reported) + [QuantityOnly(n)]
        else quantity == old(quantity) && reported == old(reported)
      ensures parsed.None? ==> quantity == 0 && reported == old(reported) + [QuantityOnly(0)]
    {
      ChangeQuantity(TypedQuantity(parsed));
    }

    /** `handleCheckedChange`: reports the new checked state and touches nothing local. */
    method CheckedChange(b: bool)
      modifies this
      ensures reported == old(reported) + [CheckedOnly(b)] && quantity == old(quantity)
    {
      reported := reported + [CheckedOnly(b)];
    }
  }
}
