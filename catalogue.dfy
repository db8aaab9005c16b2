/**
 * The packing page's item collection: a list of items per category, the default catalogue the page
 * starts from, and the operations the page applies to the collection (update an item in place by id,
 * append a custom item, remove by id, flatten into an id-keyed record for saving).
 */
module Catalogue {
  import opened Wrappers
  import opened Schema

  /** The items of each category, in display order. */
  type Catalogue = map<string, seq<PackingItem>>

  /** The categories, in the order the page lists them and iterates over them. */
  const Categories: seq<string> := ["clothing", "toiletries", "electronics", "documents", "additional"]

  /** The keys of `cat` are exactly the five categories. */
  predicate HasCategories(cat: Catalogue) {
    (forall c :: c in Categories ==> c in cat) && (forall c :: c in cat ==> c in Categories)
  }

  // ---------------------------------------------------------------------------------------
  // The default catalogue

  const ClothingDefaults: seq<PackingItem> := [
      PackingItem("suits", "Suits/Formal Dresses", "clothing", Some("formal"), false, 1, false),
      PackingItem("dress-shirts", "Dress Shirts/Blouses", "clothing", Some("formal"), false, 2, false),
      PackingItem("dress-shoes", "Dress Shoes", "clothing", Some("formal"), false, 1, false),
      PackingItem("ties", "Ties/Accessories", "clothing", Some("formal"), false, 2, false),
      PackingItem("t-shirts", "T-shirts/Casual Tops", "clothing", Some("casual"), true, 5, false),
      PackingItem("shorts-pants", "Shorts/Pants", "clothing", Some("casual"), true, 4, false),
      PackingItem("casual-shoes", "Casual Shoes/Sneakers", "clothing", Some("casual"), true, 2, false),
      PackingItem("light-jacket", "Light Jacket/Sweater", "clothing", Some("casual"), true, 1, false),
      PackingItem("swimsuits", "Swimsuits/Trunks", "clothing", Some("swimwear"), true, 3, false),
      PackingItem("cover-ups", "Cover-ups/Sarongs", "clothing", Some("swimwear"), true, 2, false),
      PackingItem("flip-flops", "Flip-flops/Sandals", "clothing", Some("swimwear"), true, 2, false)]

  const ToiletriesDefaults: seq<PackingItem> := [
      PackingItem("toothbrush", "Toothbrush & Toothpaste", "toiletries", Some("basic"), true, 1, false),
      PackingItem("shampoo", "Shampoo & Conditioner", "toiletries", Some("basic"), true, 1, false),
      PackingItem("body-wash", "Body Wash/WashingMachine", "toiletries", Some("basic"), true, 1, false),
      PackingItem("deodorant", "Deodorant", "toiletries", Some("basic"), true, 1, false),
      PackingItem("razor", "Razor & Shaving Cream", "toiletries", Some("basic"), true, 1, false),
      PackingItem("medications", "Prescription Medications", "toiletries", Some("health"), true, 1, false),
      PackingItem("sunscreen", "Sunscreen (SPF 30+)", "toiletries", Some("health"), true, 2, false),
      PackingItem("motion-sickness", "Motion Sickness Pills", "toiletries", Some("health"), false, 1, false),
      PackingItem("first-aid", "Basic First Aid Kit", "toiletries", Some("health"), false, 1, false),
      PackingItem("contact-solution", "Contact Solution & Cases", "toiletries", Some("health"), false, 1, false)]

  const ElectronicsDefaults: seq<PackingItem> := [
      PackingItem("phone-charger", "Phone & Charger", "electronics", None, true, 1, false),
      PackingItem("battery-pack", "Portable Battery Pack", "electronics", None, true, 1, false),
      PackingItem("camera", "Camera", "electronics", None, false, 1, false),
      PackingItem("tablet", "Tablet/E-reader", "electronics", None, false, 1, false),
      PackingItem("headphones", "Headphones", "electronics", None, false, 1, false),
      PackingItem("adapters", "Adapters/Converters", "electronics", None, false, 1, false)]

  const DocumentsDefaults: seq<PackingItem> := [
      PackingItem("passport", "Passport (Valid 6+ months)", "documents", None, true, 1, false),
      PackingItem("cruise-tickets", "Cruise Tickets/Confirmation", "documents", None, true, 1, false),
      PackingItem("travel-insurance", "Travel Insurance", "documents", None, true, 1, false),
      PackingItem("credit-cards", "Credit Cards & Cash", "documents", None, true, 1, false),
      PackingItem("drivers-license", "Driver's License/ID", "documents", None, false, 1, false),
      PackingItem("emergency-contacts", "Emergency Contact Info", "documents", None, false, 1, false)]

  const AdditionalDefaults: seq<PackingItem> := [
      PackingItem("sunglasses", "Sunglasses", "additional", None, true, 2, false),
      PackingItem("beach-towels", "Beach/Pool Towels", "additional", None, true, 2, false),
      PackingItem("snorkel-gear", "Snorkel Gear", "additional", None, false, 1, false),
      PackingItem("books", "Books/Magazines", "additional", None, false, 3, false),
      PackingItem("day-pack", "Day Pack/Bag", "additional", None, false, 1, false),
      PackingItem("water-bottle", "Reusable Water Bottle", "additional", None, false, 1, false)]

  const DefaultItems: Catalogue := map[
    "clothing" := ClothingDefaults,
    "toiletries" := ToiletriesDefaults,
    "electronics" := ElectronicsDefaults,
    "documents" := DocumentsDefaults,
    "additional" := AdditionalDefaults]

  /** Every item of `items` is a built-in item of category `c` with a quantity the page can show. */
  predicate Listed(items: seq<PackingItem>, c: string) {
    forall i :: 0 <= i < |items| ==>
      items[i].category == c && !items[i].isCustom && 0 <= items[i].quantity <= 99
  }

  /** No two items of `s` share an id. */
  predicate DistinctIds(s: seq<PackingItem>) {
    forall i, j :: 0 <= i < j < |s| ==> s[i].id != s[j].id
  }

  /** No item of `s` shares an id with an item of `t`. */
  predicate Apart(s: seq<PackingItem>, t: seq<PackingItem>) {
    forall i, j :: 0 <= i < |s| && 0 <= j < |t| ==> s[i].id != t[j].id
  }

  /** Every default item is listed under its own category, and none is custom. */
  lemma DefaultsListed()
    ensures HasCategories(DefaultItems)
    ensures forall c :: c in DefaultItems ==> Listed(DefaultItems[c], c)
  {
    ClothingListed();
    ToiletriesListed();
    OthersListed();
  }

  lemma ClothingListed()
    ensures Listed(ClothingDefaults, "clothing")
  {
  }

  lemma ToiletriesListed()
    ensures Listed(ToiletriesDefaults, "toiletries")
  {
  }

  lemma OthersListed()
    ensures Listed(ElectronicsDefaults, "electronics")
    ensures Listed(DocumentsDefaults, "documents")
    ensures Listed(AdditionalDefaults, "additional")
  {
  }

  lemma DistinctConcat(s: seq<PackingItem>, t: seq<PackingItem>)
    requires DistinctIds(s) && DistinctIds(t) && Apart(s, t)
    ensures DistinctIds(s + t)
  {
    var st := s + t;
    forall i, j | 0 <= i < j < |st| ensures st[i].id != st[j].id {
      if j < |s| {
        assert st[i] == s[i] && st[j] == s[j];
      } else if i < |s| {
        assert st[i] == s[i] && st[j] == t[j - |s|];
      } else {
        assert st[i] == t[i - |s|] && st[j] == t[j - |s|];
      }
    }
  }

  lemma ApartConcat(s: seq<PackingItem>, t: seq<PackingItem>, u: seq<PackingItem>)
    requires Apart(s, t) && Apart(s, u)
    ensures Apart(s, t + u)
  {
    forall i, j | 0 <= i < |s| && 0 <= j < |t + u| ensures s[i].id != (t + u)[j].id {
      if j < |t| { assert (t + u)[j] == t[j]; } else { assert (t + u)[j] == u[j - |t|]; }
    }
  }

  lemma ClothingIdsDistinct() ensures DistinctIds(ClothingDefaults) {}
  lemma ToiletriesIdsDistinct() ensures DistinctIds(ToiletriesDefaults) {}
  lemma ElectronicsIdsDistinct() ensures DistinctIds(ElectronicsDefaults) {}
  lemma DocumentsIdsDistinct() ensures DistinctIds(DocumentsDefaults) {}
  lemma AdditionalIdsDistinct() ensures DistinctIds(AdditionalDefaults) {}

  lemma ClothingApartToiletries() ensures Apart(ClothingDefaults, ToiletriesDefaults) {}
  lemma ClothingApartElectronics() ensures Apart(ClothingDefaults, ElectronicsDefaults) {}
  lemma ClothingApartDocuments() ensures Apart(ClothingDefaults, DocumentsDefaults) {}
  lemma ClothingApartAdditional() ensures Apart(ClothingDefaults, AdditionalDefaults) {}
  lemma ToiletriesApartElectronics() ensures Apart(ToiletriesDefaults, ElectronicsDefaults) {}
  lemma ToiletriesApartDocuments() ensures Apart(ToiletriesDefaults, DocumentsDefaults) {}
  lemma ToiletriesApartAdditional() ensures Apart(ToiletriesDefaults, AdditionalDefaults) {}
  lemma ElectronicsApartDocuments() ensures Apart(ElectronicsDefaults, DocumentsDefaults) {}
  lemma ElectronicsApartAdditional() ensures Apart(ElectronicsDefaults, AdditionalDefaults) {}
  lemma DocumentsApartAdditional() ensures Apart(DocumentsDefaults, AdditionalDefaults) {}

  /** No id occurs twice in the whole default catalogue. */
  lemma DefaultIdsDistinct()
    ensures DistinctIds(Flatten(DefaultItems))
  {
    DefaultsListed();
    ClothingIdsDistinct();
    ToiletriesIdsDistinct();
    ElectronicsIdsDistinct();
    DocumentsIdsDistinct();
    AdditionalIdsDistinct();
    ClothingApartToiletries();
    ClothingApartElectronics();
    ClothingApartDocuments();
    ClothingApartAdditional();
    ToiletriesApartElectronics();
    ToiletriesApartDocuments();
    ToiletriesApartAdditional();
    ElectronicsApartDocuments();
    ElectronicsApartAdditional();
    DocumentsApartAdditional();
    DistinctFive(ClothingDefaults, ToiletriesDefaults, ElectronicsDefaults, DocumentsDefaults, AdditionalDefaults);
    FlattenDefaults();
  }

  /** The flattened default catalogue, category by category. */
  lemma FlattenDefaults()
    ensures Flatten(DefaultItems) ==
      ClothingDefaults + (ToiletriesDefaults + (ElectronicsDefaults + (DocumentsDefaults + AdditionalDefaults)))
  {
  }

  /** Five groups of distinct ids, pairwise apart, concatenate to distinct ids. */
  lemma DistinctFive(e: seq<PackingItem>, d: seq<PackingItem>, c: seq<PackingItem>, b: seq<PackingItem>, a: seq<PackingItem>)
    requires DistinctIds(a) && DistinctIds(b) && DistinctIds(c) && DistinctIds(d) && DistinctIds(e)
    requires Apart(e, d) && Apart(e, c) && Apart(e, b) && Apart(e, a)
    requires Apart(d, c) && Apart(d, b) && Apart(d, a) && Apart(c, b) && Apart(c, a) && Apart(b, a)
    ensures DistinctIds(e + (d + (c + (b + a))))
  {
    DistinctConcat(b, a);
    ApartConcat(c, b, a);
    DistinctConcat(c, b + a);
    ApartConcat(d, b, a);
    ApartConcat(d, c, b + a);
    DistinctConcat(d, c + (b + a));
    ApartConcat(e, b, a);
    ApartConcat(e, c, b + a);
    ApartConcat(e, d, c + (b + a));
    DistinctConcat(e, d + (c + (b + a)));
  }

  // ---------------------------------------------------------------------------------------
  // Flattening

  /** The items of the categories `keys`, one category after the other. */
  function Concat(cat: Catalogue, keys: seq<string>): (r: seq<PackingItem>)
    requires forall k :: k in keys ==> k in cat
    ensures forall x :: x in r <==> exists k :: k in keys && x in cat[k]
    decreases |keys|
  {
    if |keys| == 0 then []
    else
      var rest := Concat(cat, keys[1..]);
      assert forall k :: k in keys <==> k == keys[0] || k in keys[1..];
      cat[keys[0]] + rest
  }

  /** `Object.values(items).flat()`: every item, category by category in page order. */
  function Flatten(cat: Catalogue): (r: seq<PackingItem>)
    requires HasCategories(cat)
    ensures forall x :: x in r <==> exists c :: c in cat && x in cat[c]
  {
    Concat(cat, Categories)
  }

  /** The record `handleSave` fills from `s`: each item under its id, a later item replacing an earlier
      one with the same id. */
  function ById(s: seq<PackingItem>): (m: map<string, PackingItem>)
    ensures forall k :: k in m <==> exists i :: 0 <= i < |s| && s[i].id == k
    ensures forall k :: k in m ==> m[k].id == k && m[k] in s
    decreases |s|
  {
    if |s| == 0 then map[]
    else
      var init := ById(s[..|s| - 1]);
      var last := s[|s| - 1];
      assert forall x :: x in s[..|s| - 1] ==> x in s;
      assert forall i :: 0 <= i < |s| - 1 ==> s[..|s| - 1][i] == s[i];
      init[last.id := last]
  }

  /** The item recorded under an id is the last item of `s` with that id. */
  lemma {:induction false} LastWins(s: seq<PackingItem>, i: int)
    requires 0 <= i < |s|
    requires forall j :: i < j < |s| ==> s[j].id != s[i].id
    ensures s[i].id in ById(s) && ById(s)[s[i].id] == s[i]
    decreases |s|
  {
    if i < |s| - 1 {
      var init := s[..|s| - 1];
      assert init[i] == s[i];
      forall j | i < j < |init| ensures init[j].id != init[i].id { assert init[j] == s[j]; }
      LastWins(init, i);
    }
  }

  /** With distinct ids, every item is recorded under its own id. */
  lemma DistinctRecorded(s: seq<PackingItem>)
    requires DistinctIds(s)
    ensures forall i :: 0 <= i < |s| ==> s[i].id in ById(s) && ById(s)[s[i].id] == s[i]
    ensures |ById(s).Keys| == |s|
  {
    forall i | 0 <= i < |s| ensures s[i].id in ById(s) && ById(s)[s[i].id] == s[i] {
      LastWins(s, i);
    }
    IdsCard(s);
  }

  /** Distinct ids number as many as the items that carry them. */
  lemma {:induction false} IdsCard(s: seq<PackingItem>)
    requires DistinctIds(s)
    ensures |ById(s).Keys| == |s|
    decreases |s|
  {
    if |s| > 0 {
      var init := s[..|s| - 1];
      assert DistinctIds(init) by {
        forall i, j | 0 <= i < j < |init| ensures init[i].id != init[j].id { assert init[i] == s[i] && init[j] == s[j]; }
      }
      IdsCard(init);
      var last := s[|s| - 1];
      assert ById(s).Keys == ById(init).Keys + {last.id};
    }
  }

  /** The loop of `handleSave` that fills the id-keyed record. */
  method CollectById(s: seq<PackingItem>) returns (m: map<string, PackingItem>)
    ensures m == ById(s)
  {
    m := map[];
    for i := 0 to |s|
      invariant m == ById(s[..i])
    {
      assert s[..i + 1][..i] == s[..i];
      m := m[s[i].id := s[i]];
    }
    assert s[..|s|] == s;
  }

  /** Every item of `s` is recorded under its own id. */
  predicate AllRecorded(s: seq<PackingItem>) {
    forall i :: 0 <= i < |s| ==> s[i].id in ById(s) && ById(s)[s[i].id] == s[i]
  }

  /** Saving the default catalogue records every default item under its own id. */
  lemma DefaultsSaved()
    ensures AllRecorded(Flatten(DefaultItems))
    ensures |ById(Flatten(DefaultItems))| == |Flatten(DefaultItems)|
  {
    DefaultIdsDistinct();
    DistinctRecorded(Flatten(DefaultItems));
  }

  /** The JSON record a client sends for the flattened items. */
  function ItemsToJson(m: map<string, PackingItem>): Json {
    JObj(map k | k in m :: ItemToJson(m[k]))
  }

  /** A saved record of valid items passes the record schema unchanged. */
  lemma SavedItemsValidate(m: map<string, PackingItem>)
    requires forall k :: k in m ==> ValidItem(m[k])
    ensures ParseItems(ItemsToJson(m)).Success? && ParseItems(ItemsToJson(m)).value.Keys == m.Keys
    ensures forall k :: k in m ==> ParseItems(ItemsToJson(m)).value[k] == m[k]
  {
    var j := ItemsToJson(m);
    assert j.fields.Keys == m.Keys;
    forall k | k in m ensures ParseItem(j.fields[k]) == Success(m[k]) {
      var item := m[k];
      assert j.fields[k] == ItemToJson(item);
      ItemRoundTrip(item);
    }
    ParseItemsPointwise(j, m);
  }

  /** Every item of the catalogue has a quantity of at least zero. */
  predicate AllValid(cat: Catalogue) {
    forall c, i :: c in cat && 0 <= i < |cat[c]| ==> ValidItem(cat[c][i])
  }

  /** Saving a catalogue of valid items yields a record the server accepts exactly as sent. */
  lemma SaveValidates(cat: Catalogue)
    requires HasCategories(cat) && AllValid(cat)
    ensures var m := ById(Flatten(cat));
      ParseItems(ItemsToJson(m)).Success? && ParseItems(ItemsToJson(m)).value.Keys == m.Keys
      && forall k :: k in m ==> ParseItems(ItemsToJson(m)).value[k] == m[k]
  {
    var s := Flatten(cat);
    forall k | k in ById(s) ensures ValidItem(ById(s)[k]) {
      var x := ById(s)[k];
      assert x in s;
      var c :| c in cat && x in cat[c];
      var i :| 0 <= i < |cat[c]| && cat[c][i] == x;
    }
    SavedItemsValidate(ById(s));
  }

  // ---------------------------------------------------------------------------------------
  // Updating an item in place

  /** `Partial<PackingItem>`: the fields an update supplies. */
  datatype ItemUpdate = ItemUpdate(
    id: Option<string>,
    name: Option<string>,
    category: Option<string>,
    subcategory: Option<string>,
    checked: Option<bool>,
    quantity: Option<int>,
    isCustom: Option<bool>)

  const NoChange := ItemUpdate(None, None, None, None, None, None, None)

  /** `{ ...item, ...updates }` */
  function Merge(item: PackingItem, u: ItemUpdate): PackingItem {
    PackingItem(
      u.id.GetOr(item.id),
      u.name.GetOr(item.name),
      u.category.GetOr(item.category),
      if u.subcategory.Some? then u.subcategory else item.subcategory,
      u.checked.GetOr(item.checked),
      u.quantity.GetOr(item.quantity),
      u.isCustom.GetOr(item.isCustom))
  }

  /** Merging keeps every field the update does not supply, takes every field it does, and merging the
      same update twice is merging it once. */
  lemma MergeFields(item: PackingItem, u: ItemUpdate)
    ensures Merge(item, NoChange) == item
    ensures Merge(Merge(item, u), u) == Merge(item, u)
    ensures var m := Merge(item, u);
      && (m.id == if u.id.Some? then u.id.value else item.id)
      && (m.name == if u.name.Some? then u.name.value else item.name)
      && (m.category == if u.category.Some? then u.category.value else item.category)
      && (m.subcategory == if u.subcategory.Some? then u.subcategory else item.subcategory)
      && (m.checked == if u.checked.Some? then u.checked.value else item.checked)
      && (m.quantity == if u.quantity.Some? then u.quantity.value else item.quantity)
      && (m.isCustom == if u.isCustom.Some? then u.isCustom.value else item.isCustom)
  {
  }

  /** `findIndex`: the position of the first item with the id, or -1. */
  function FindIndex(items: seq<PackingItem>, id: string): (r: int)
    ensures -1 <= r < |items|
    ensures r == -1 <==> forall k :: 0 <= k < |items| ==> items[k].id != id
    ensures r >= 0 ==> items[r].id == id && forall k :: 0 <= k < r ==> items[k].id != id
    decreases |items|
  {
    if |items| == 0 then -1
    else if items[0].id == id then 0
    else
      var r := FindIndex(items[1..], id);
      if r == -1 then -1 else r + 1
  }

  /** One category's list after the update: the first item with the id merged, all else as it was. */
  function UpdateFirst(items: seq<PackingItem>, id: string, u: ItemUpdate): (r: seq<PackingItem>)
    ensures |r| == |items|
    ensures forall k :: 0 <= k < |items| && k != FindIndex(items, id) ==> r[k] == items[k]
    ensures FindIndex(items, id) >= 0 ==> r[FindIndex(items, id)] == Merge(items[FindIndex(items, id)], u)
  {
    var i := FindIndex(items, id);
    if i == -1 then items else items[i := Merge(items[i], u)]
  }

  /** The catalogue `handleUpdateItem` produces. */
  function Updated(cat: Catalogue, id: string, u: ItemUpdate): Catalogue {
    map c | c in cat :: UpdateFirst(cat[c], id, u)
  }

  /** The update touches, in each category, only the first item with the id, and only with the supplied
      fields; no item is added or removed, and no category appears or disappears. */
  lemma UpdatedShape(cat: Catalogue, id: string, u: ItemUpdate)
    ensures Updated(cat, id, u).Keys == cat.Keys
    ensures forall c :: c in cat ==> |Updated(cat, id, u)[c]| == |cat[c]|
    ensures forall c, k :: c in cat && 0 <= k < |cat[c]| ==>
      Updated(cat, id, u)[c][k] == if cat[c][k].id == id && forall j :: 0 <= j < k ==> cat[c][j].id != id
                                   then Merge(cat[c][k], u) else cat[c][k]
  {
    forall c, k | c in cat && 0 <= k < |cat[c]|
      ensures Updated(cat, id, u)[c][k] == if cat[c][k].id == id && forall j :: 0 <= j < k ==> cat[c][j].id != id
                                           then Merge(cat[c][k], u) else cat[c][k]
    {
      var i := FindIndex(cat[c], id);
      if cat[c][k].id == id && forall j :: 0 <= j < k ==> cat[c][j].id != id {
        assert i == k;
      }
    }
  }

  /** An id carried by no item changes nothing. */
  lemma UpdateUnknownId(cat: Catalogue, id: string, u: ItemUpdate)
    requires forall c, k :: c in cat && 0 <= k < |cat[c]| ==> cat[c][k].id != id
    ensures Updated(cat, id, u) == cat
  {
  }

  /** An update that sets no negative quantity keeps every item valid. */
  lemma UpdatedKeepsValid(cat: Catalogue, id: string, u: ItemUpdate)
    requires AllValid(cat) && (u.quantity.Some? ==> u.quantity.value >= 0)
    ensures AllValid(Updated(cat, id, u))
  {
    UpdatedShape(cat, id, u);
  }

  /** The merge at the index `findIndex` returns is the update of the category. */
  lemma UpdateAt(items: seq<PackingItem>, id: string, u: ItemUpdate)
    ensures var index := FindIndex(items, id);
      (if index != -1 then items[index := Merge(items[index], u)] else items) == UpdateFirst(items, id, u)
  {
  }

  /** No key occurs twice in `s`. */
  predicate DistinctKeys(s: seq<string>) {
    forall i, j :: 0 <= i < j < |s| ==> s[i] != s[j]
  }

  /** The loop of `handleUpdateItem` over `keys`, the key order of the record. */
  method UpdateItems(cat: Catalogue, keys: seq<string>, id: string, u: ItemUpdate) returns (r: Catalogue)
    requires DistinctKeys(keys) && forall c :: c in cat <==> c in keys
    ensures r == Updated(cat, id, u)
  {
    r := cat;
    for i := 0 to |keys|
      invariant UpdatedUpTo(cat, r, keys, i, id, u)
    {
      var c := keys[i];
      var index := FindIndex(r[c], id);
      UpdateAt(r[c], id, u);
      UpdatedStep(cat, r, keys, i, id, u);
      if index != -1 {
        r := r[c := r[c][index := Merge(r[c][index], u)]];
      }
    }
    forall c | c in cat ensures r[c] == UpdateFirst(cat[c], id, u) {
      var j :| 0 <= j < |keys| && keys[j] == c;
    }
    UpdatedPointwise(cat, r, id, u);
  }

  /** The categories `keys[..i]` of `r` are updated, the others are as in `cat`. */
  predicate UpdatedUpTo(cat: Catalogue, r: Catalogue, keys: seq<string>, i: int, id: string, u: ItemUpdate)
    requires forall c :: c in cat <==> c in keys
  {
    && r.Keys == cat.Keys
    && forall j :: 0 <= j < |keys| ==> r[keys[j]] == if j < i then UpdateFirst(cat[keys[j]], id, u) else cat[keys[j]]
  }

  /** Updating category `keys[i]` extends the updated prefix by one. */
  lemma UpdatedStep(cat: Catalogue, r: Catalogue, keys: seq<string>, i: int, id: string, u: ItemUpdate)
    requires DistinctKeys(keys) && forall c :: c in cat <==> c in keys
    requires 0 <= i < |keys| && UpdatedUpTo(cat, r, keys, i, id, u)
    ensures UpdatedUpTo(cat, r[keys[i] := UpdateFirst(r[keys[i]], id, u)], keys, i + 1, id, u)
  {
    var c := keys[i];
    var r2 := r[c := UpdateFirst(r[c], id, u)];
    forall j | 0 <= j < |keys|
      ensures r2[keys[j]] == if j < i + 1 then UpdateFirst(cat[keys[j]], id, u) else cat[keys[j]]
    {
      if j != i {
        assert keys[j] != c;
      }
    }
  }

  /** A catalogue with the same categories, each updated, is the updated catalogue. */
  lemma UpdatedPointwise(cat: Catalogue, r: Catalogue, id: string, u: ItemUpdate)
    requires r.Keys == cat.Keys && forall c :: c in cat ==> r[c] == UpdateFirst(cat[c], id, u)
    ensures r == Updated(cat, id, u)
  {
  }

  // ---------------------------------------------------------------------------------------
  // Adding and removing items

  /** `Omit<PackingItem, 'id'>`: an item before its id is assigned. */
  datatype NewItem = NewItem(
    name: string,
    category: string,
    subcategory: Option<string>,
    checked: bool,
    quantity: int,
    isCustom: bool)

  function WithId(n: NewItem, id: string): PackingItem {
    PackingItem(id, n.name, n.category, n.subcategory, n.checked, n.quantity, n.isCustom)
  }

  /** The catalogue `handleAddCustomItem` produces: the item, under its new id, at the end of its own
      category; every other category as it was. */
  function WithCustomItem(cat: Catalogue, n: NewItem, id: string): (r: Catalogue)
    requires n.category in cat
    ensures r.Keys == cat.Keys
    ensures r[n.category] == cat[n.category] + [WithId(n, id)]
    ensures forall c :: c in cat && c != n.category ==> r[c] == cat[c]
  {
    cat[n.category := cat[n.category] + [WithId(n, id)]]
  }

  /** `filter(item => item.id !== id)` */
  function Drop(items: seq<PackingItem>, id: string): (r: seq<PackingItem>)
    ensures forall x :: x in r <==> x in items && x.id != id
    ensures |r| <= |items|
    ensures (forall k :: 0 <= k < |items| ==> items[k].id != id) ==> r == items
    decreases |items|
  {
    if |items| == 0 then []
    else if items[0].id == id then Drop(items[1..], id)
    else [items[0]] + Drop(items[1..], id)
  }

  /** Filtering keeps the order of what it keeps: it distributes over concatenation. */
  lemma {:induction false} DropConcat(s: seq<PackingItem>, t: seq<PackingItem>, id: string)
    ensures Drop(s + t, id) == Drop(s, id) + Drop(t, id)
    decreases |s|
  {
    if |s| > 0 {
      assert (s + t)[0] == s[0];
      assert (s + t)[1..] == s[1..] + t;
      DropConcat(s[1..], t, id);
      if s[0].id == id {
        assert Drop(s + t, id) == Drop(s[1..] + t, id);
      } else {
        assert Drop(s + t, id) == [s[0]] + Drop(s[1..] + t, id);
        assert Drop(s, id) == [s[0]] + Drop(s[1..], id);
      }
    } else {
      assert s + t == t;
    }
  }

  /** The catalogue `handleRemoveItem` produces. */
  function Removed(cat: Catalogue, id: string): (r: Catalogue)
    ensures r.Keys == cat.Keys
    ensures forall c :: c in cat ==> r[c] == Drop(cat[c], id)
  {
    map c | c in cat :: Drop(cat[c], id)
  }

  /** After a filter no item has the id, so filtering again changes nothing. */
  lemma DropIdempotent(items: seq<PackingItem>, id: string)
    ensures forall k :: 0 <= k < |Drop(items, id)| ==> Drop(items, id)[k].id != id
    ensures Drop(Drop(items, id), id) == Drop(items, id)
  {
    var r := Drop(items, id);
    assert forall k :: 0 <= k < |r| ==> r[k] in r;
  }

  /** After a remove no category holds the id, and removing again changes nothing. */
  lemma RemovedIdempotent(cat: Catalogue, id: string)
    ensures forall c, k :: c in cat && 0 <= k < |Removed(cat, id)[c]| ==> Removed(cat, id)[c][k].id != id
    ensures Removed(Removed(cat, id), id) == Removed(cat, id)
  {
    var r: Catalogue := Removed(cat, id);
    forall c | c in cat
      ensures (forall k :: 0 <= k < |r[c]| ==> r[c][k].id != id) && Drop(r[c], id) == r[c]
    {
      DropIdempotent(cat[c], id);
    }
    assert Removed(r, id) == r;
  }

  /** Removing an id no item has changes nothing. */
  lemma RemoveUnknownId(cat: Catalogue, id: string)
    requires forall c, k :: c in cat && 0 <= k < |cat[c]| ==> cat[c][k].id != id
    ensures Removed(cat, id) == cat
  {
    forall c | c in cat ensures Drop(cat[c], id) == cat[c] {
      assert forall k :: 0 <= k < |cat[c]| ==> cat[c][k].id != id;
    }
  }

  /** Removing a custom item right after adding it, under an id no item had, restores the catalogue. */
  lemma RemoveUndoesAdd(cat: Catalogue, n: NewItem, id: string)
    requires n.category in cat
    requires forall c, k :: c in cat && 0 <= k < |cat[c]| ==> cat[c][k].id != id
    ensures Removed(WithCustomItem(cat, n, id), id) == cat
  {
    var added := WithCustomItem(cat, n, id);
    DropConcat(cat[n.category], [WithId(n, id)], id);
    assert Drop([WithId(n, id)], id) == [];
    forall c | c in cat ensures Drop(added[c], id) == cat[c] {
      assert forall k :: 0 <= k < |cat[c]| ==> cat[c][k].id != id;
    }
    assert Removed(added, id).Keys == cat.Keys;
  }
}
