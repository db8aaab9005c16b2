/**
 * The shared record shapes and the validation rules the server applies to request bodies:
 * the item schema (with its defaults), the record of items, and the insert payload of a
 * packing list together with its all-fields-optional variant used for updates.
 *
 * A body is modelled as a parsed JSON value. Validation either yields the typed payload or
 * fails with the set of field paths it found wrong (zod reports every failing field, not
 * just the first; the order of its report is not modelled).
 */
module Schema {
  import opened Wrappers

  /** A parsed JSON value. Numbers are integers in this model. */
  datatype Json = JNull | JBool(b: bool) | JNum(n: int) | JStr(s: string) | JArr(elems: seq<Json>) | JObj(fields: map<string, Json>)

  /** The location of a failing field: the chain of object keys leading to it. */
  type Path = seq<string>

  /** One packable entry of a list. */
  datatype PackingItem = PackingItem(
    id: string,
    name: string,
    category: string,
    subcategory: Option<string>,
    checked: bool,
    quantity: int,
    isCustom: bool)

  /** What the item schema guarantees beyond the field types: a quantity of at least zero. */
  predicate ValidItem(item: PackingItem) { item.quantity >= 0 }

  /** A nullable, optional text field of the insert payload as it arrived. */
  datatype Nullable = Absent | Null | Given(text: string)

  /** The validated creation payload: no id, no timestamps. */
  datatype InsertList = InsertList(
    name: string,
    cruiseName: Nullable,
    departureDate: Nullable,
    cruiseLength: Nullable,
    destinations: Nullable,
    cabinType: Nullable,
    weather: Nullable,
    notes: Nullable,
    items: map<string, PackingItem>)

  /** The validated update payload: the insert payload with every field optional. */
  datatype ListPatch = ListPatch(
    name: Option<string>,
    cruiseName: Nullable,
    departureDate: Nullable,
    cruiseLength: Nullable,
    destinations: Nullable,
    cabinType: Nullable,
    weather: Nullable,
    notes: Nullable,
    items: Option<map<string, PackingItem>>)

  // ---------------------------------------------------------------------------------------
  // Field rules. Each yields the paths it finds wrong; an absent key is `undefined`.

  /** `z.string()` */
  function RequiredString(f: map<string, Json>, k: string): set<Path> {
    if k in f && f[k].JStr? then {} else {[k]}
  }

  /** `z.string().optional()` */
  function OptionalString(f: map<string, Json>, k: string): set<Path> {
    if k !in f || f[k].JStr? then {} else {[k]}
  }

  /** `z.boolean().default(...)` */
  function OptionalBool(f: map<string, Json>, k: string): set<Path> {
    if k !in f || f[k].JBool? then {} else {[k]}
  }

  /** `z.number().min(0).default(...)` */
  function OptionalQuantity(f: map<string, Json>, k: string): set<Path> {
    if k !in f || (f[k].JNum? && f[k].n >= 0) then {} else {[k]}
  }

  /** `z.string().nullable().optional()`, the shape of every nullable text column. */
  function NullableString(f: map<string, Json>, k: string): set<Path> {
    if k !in f || f[k].JNull? || f[k].JStr? then {} else {[k]}
  }

  /** Every path of `issues`, placed under key `k`. */
  function Under(k: string, issues: set<Path>): (r: set<Path>)
    ensures forall p :: p in issues <==> [k] + p in r
    ensures |r| == 0 <==> |issues| == 0
  {
    var r := set p | p in issues :: [k] + p;
    assert forall q :: q in r ==> q[1..] in issues;
    r
  }

  // ---------------------------------------------------------------------------------------
  // PackingItemSchema

  /** The fields `PackingItemSchema` refuses in `j`. */
  function ItemIssues(j: Json): set<Path> {
    if !j.JObj? then {[]}
    else
      var f := j.fields;
      RequiredString(f, "id") + RequiredString(f, "name") + RequiredString(f, "category")
      + OptionalString(f, "subcategory") + OptionalBool(f, "checked")
      + OptionalQuantity(f, "quantity") + OptionalBool(f, "isCustom")
  }

  /** `PackingItemSchema.parse(j)`: unknown keys are dropped, absent `checked` and `isCustom`
      become false and an absent `quantity` becomes 1. */
  function ParseItem(j: Json): (r: Result<PackingItem, set<Path>>)
    ensures r.Success? <==> ItemIssues(j) == {}
    ensures r.Failure? ==> r.error == ItemIssues(j)
    ensures r.Success? ==> ValidItem(r.value)
  {
    if ItemIssues(j) != {} then Failure(ItemIssues(j))
    else
      var f := j.fields;
      assert "id" in f && "name" in f && "category" in f;
      Success(PackingItem(
        f["id"].s,
        f["name"].s,
        f["category"].s,
        if "subcategory" in f then Some(f["subcategory"].s) else None,
        if "checked" in f then f["checked"].b else false,
        if "quantity" in f then f["quantity"].n else 1,
        if "isCustom" in f then f["isCustom"].b else false))
  }

  /** The JSON a client sends for an item (`JSON.stringify`): an absent subcategory is left out. */
  function ItemToJson(item: PackingItem): Json {
    var f := map[
      "id" := JStr(item.id),
      "name" := JStr(item.name),
      "category" := JStr(item.category),
      "checked" := JBool(item.checked),
      "quantity" := JNum(item.quantity),
      "isCustom" := JBool(item.isCustom)];
    JObj(if item.subcategory.Some? then f["subcategory" := JStr(item.subcategory.value)] else f)
  }

  // ---------------------------------------------------------------------------------------
  // PackingListItemsSchema: z.record(z.string(), PackingItemSchema)

  /** The fields the record schema refuses: each item's issues, under its key. */
  function ItemsIssues(j: Json): set<Path> {
    if !j.JObj? then {[]}
    else set k, p | k in j.fields && p in ItemIssues(j.fields[k]) :: [k] + p
  }

  /** The record has no issue exactly when it is an object and every value is a valid item. */
  lemma ItemsIssuesEmptyIff(j: Json)
    ensures ItemsIssues(j) == {} <==> j.JObj? && forall k :: k in j.fields ==> ItemIssues(j.fields[k]) == {}
  {
    if j.JObj? && exists k :: k in j.fields && ItemIssues(j.fields[k]) != {} {
      var k :| k in j.fields && ItemIssues(j.fields[k]) != {};
      var p :| p in ItemIssues(j.fields[k]);
      assert [k] + p in ItemsIssues(j);
    }
  }

  /** `PackingListItemsSchema.parse(j)`: every value parsed as an item, keys kept as they are. */
  function ParseItems(j: Json): (r: Result<map<string, PackingItem>, set<Path>>)
    ensures r.Success? <==> j.JObj? && forall k :: k in j.fields ==> ParseItem(j.fields[k]).Success?
    ensures r.Success? ==> r.value.Keys == j.fields.Keys
                           && forall k :: k in r.value ==> ParseItem(j.fields[k]) == Success(r.value[k])
    ensures r.Failure? ==> r.error == ItemsIssues(j) && r.error != {}
  {
    if j.JObj? && forall k :: k in j.fields ==> ParseItem(j.fields[k]).Success? then
      Success(ParsedAll(j.fields))
    else
      ItemsRefused(j);
      Failure(ItemsIssues(j))
  }

  /** The parsed item of every value, under the same key. */
  function ParsedAll(fields: map<string, Json>): (m: map<string, PackingItem>)
    requires forall k :: k in fields ==> ParseItem(fields[k]).Success?
    ensures m.Keys == fields.Keys
    ensures forall k :: k in m ==> ParseItem(fields[k]) == Success(m[k])
  {
    map k | k in fields :: ParseItem(fields[k]).value
  }

  /** A record that is not an object, or has a value that is not an item, has an issue. */
  lemma ItemsRefused(j: Json)
    requires !(j.JObj? && forall k :: k in j.fields ==> ParseItem(j.fields[k]).Success?)
    ensures ItemsIssues(j) != {}
  {
    if j.JObj? {
      var k :| k in j.fields && !ParseItem(j.fields[k]).Success?;
      var p :| p in ItemIssues(j.fields[k]);
      assert [k] + p in ItemsIssues(j);
    }
  }

  /** A record whose every value parses as a given item parses to exactly those items. */
  lemma ParseItemsPointwise(j: Json, m: map<string, PackingItem>)
    requires j.JObj? && j.fields.Keys == m.Keys
    requires forall k :: k in m ==> ParseItem(j.fields[k]) == Success(m[k])
    ensures ParseItems(j).Success? && ParseItems(j).value.Keys == m.Keys
    ensures forall k :: k in m ==> ParseItems(j).value[k] == m[k]
  {
  }

  // ---------------------------------------------------------------------------------------
  // insertPackingListSchema and insertPackingListSchema.partial()

  /** The nullable text columns of a list, in table order. */
  function DescriptorIssues(f: map<string, Json>): set<Path> {
    NullableString(f, "cruiseName") + NullableString(f, "departureDate") + NullableString(f, "cruiseLength")
    + NullableString(f, "destinations") + NullableString(f, "cabinType") + NullableString(f, "weather")
    + NullableString(f, "notes")
  }

  /** A nullable text field that passed its rule. */
  function TextField(f: map<string, Json>, k: string): (r: Nullable)
    requires NullableString(f, k) == {}
    ensures r.Absent? <==> k !in f
    ensures r.Null? <==> k in f && f[k] == JNull
    ensures r.Given? ==> f[k] == JStr(r.text)
  {
    if k !in f then Absent else if f[k].JNull? then Null else Given(f[k].s)
  }

  /** The fields the insert schema refuses; `id`, `createdAt` and `updatedAt` are not part of it. */
  function InsertIssues(body: Json): set<Path> {
    if !body.JObj? then {[]}
    else
      var f := body.fields;
      RequiredString(f, "name") + DescriptorIssues(f)
      + (if "items" in f then Under("items", ItemsIssues(f["items"])) else {["items"]})
  }

  /** `insertPackingListSchema.parse(body)` */
  function ParseInsert(body: Json): (r: Result<InsertList, set<Path>>)
    ensures r.Success? <==> InsertIssues(body) == {}
    ensures r.Failure? ==> r.error == InsertIssues(body)
  {
    if InsertIssues(body) != {} then Failure(InsertIssues(body))
    else
      var f := body.fields;
      Success(InsertList(
        f["name"].s,
        TextField(f, "cruiseName"), TextField(f, "departureDate"), TextField(f, "cruiseLength"),
        TextField(f, "destinations"), TextField(f, "cabinType"), TextField(f, "weather"),
        TextField(f, "notes"),
        ParseItems(f["items"]).value))
  }

  /** A body with a text `name`, nullable text descriptors and a valid `items` record is accepted with
      those values. */
  lemma InsertAccepted(f: map<string, Json>)
    requires "name" in f && f["name"].JStr?
    requires DescriptorIssues(f) == {}
    requires "items" in f && ParseItems(f["items"]).Success?
    ensures ParseInsert(JObj(f)).Success?
    ensures ParseInsert(JObj(f)).value.name == f["name"].s
    ensures var v := ParseInsert(JObj(f)).value;
      && v.cruiseName == TextField(f, "cruiseName") && v.departureDate == TextField(f, "departureDate")
      && v.cruiseLength == TextField(f, "cruiseLength") && v.destinations == TextField(f, "destinations")
      && v.cabinType == TextField(f, "cabinType") && v.weather == TextField(f, "weather")
      && v.notes == TextField(f, "notes")
    ensures ParseInsert(JObj(f)).value.items == ParseItems(f["items"]).value
  {
    assert ItemsIssues(f["items"]) == {};
    assert InsertIssues(JObj(f)) == {};
  }

  /** The fields the partial schema refuses: the same rules, but nothing is required. */
  function PatchIssues(body: Json): set<Path> {
    if !body.JObj? then {[]}
    else
      var f := body.fields;
      OptionalString(f, "name") + DescriptorIssues(f)
      + (if "items" in f then Under("items", ItemsIssues(f["items"])) else {})
  }

  /** `insertPackingListSchema.partial().parse(body)` */
  function ParsePatch(body: Json): (r: Result<ListPatch, set<Path>>)
    ensures r.Success? <==> PatchIssues(body) == {}
    ensures r.Failure? ==> r.error == PatchIssues(body)
  {
    if PatchIssues(body) != {} then Failure(PatchIssues(body))
    else
      var f := body.fields;
      Success(ListPatch(
        if "name" in f then Some(f["name"].s) else None,
        TextField(f, "cruiseName"), TextField(f, "departureDate"), TextField(f, "cruiseLength"),
        TextField(f, "destinations"), TextField(f, "cabinType"), TextField(f, "weather"),
        TextField(f, "notes"),
        if "items" in f then Some(ParseItems(f["items"]).value) else None))
  }

  // ---------------------------------------------------------------------------------------
  // Properties of the rules

  /** An item is accepted exactly when it is an object whose `id`, `name` and `category` are strings,
      whose `subcategory` is absent or a string, whose flags are absent or booleans, and whose
      `quantity` is absent or a number of at least zero. */
  lemma ItemAcceptedIff(j: Json)
    ensures ParseItem(j).Success? <==>
      && j.JObj?
      && "id" in j.fields && j.fields["id"].JStr?
      && "name" in j.fields && j.fields["name"].JStr?
      && "category" in j.fields && j.fields["category"].JStr?
      && ("subcategory" in j.fields ==> j.fields["subcategory"].JStr?)
      && ("checked" in j.fields ==> j.fields["checked"].JBool?)
      && ("quantity" in j.fields ==> j.fields["quantity"].JNum? && j.fields["quantity"].n >= 0)
      && ("isCustom" in j.fields ==> j.fields["isCustom"].JBool?)
  {
  }

  /** Absent `checked` and `isCustom` become false, an absent `quantity` becomes 1; present fields are kept. */
  lemma ItemDefaults(j: Json)
    requires ParseItem(j).Success?
    ensures var item := ParseItem(j).value;
      && (item.checked == if "checked" in j.fields then j.fields["checked"].b else false)
      && (item.quantity == if "quantity" in j.fields then j.fields["quantity"].n else 1)
      && (item.isCustom == if "isCustom" in j.fields then j.fields["isCustom"].b else false)
      && (item.subcategory.None? <==> "subcategory" !in j.fields)
      && ("subcategory" in j.fields ==> j.fields["subcategory"] == JStr(item.subcategory.value))
      && JStr(item.id) == j.fields["id"] && JStr(item.name) == j.fields["name"]
      && JStr(item.category) == j.fields["category"]
  {
  }

  /** A negative quantity is refused, and the refusal names the field. */
  lemma NegativeQuantityRejected(f: map<string, Json>, n: int)
    requires n < 0
    ensures ParseItem(JObj(f["quantity" := JNum(n)])).Failure?
    ensures ["quantity"] in ParseItem(JObj(f["quantity" := JNum(n)])).error
  {
  }

  /** Every valid item survives the trip through its JSON form unchanged. */
  lemma ItemRoundTrip(item: PackingItem)
    requires ValidItem(item)
    ensures ParseItem(ItemToJson(item)) == Success(item)
  {
    var j := ItemToJson(item);
    assert ItemIssues(j) == {};
  }

  /** One invalid item refuses the whole insert payload, and every issue of the item is reported under
      `items` and its key. */
  lemma InvalidItemRejectsList(f: map<string, Json>, k: string)
    requires "items" in f && f["items"].JObj? && k in f["items"].fields
    requires ParseItem(f["items"].fields[k]).Failure?
    ensures ParseInsert(JObj(f)).Failure? && ParsePatch(JObj(f)).Failure?
    ensures forall p :: p in ItemIssues(f["items"].fields[k]) ==>
      ["items", k] + p in ParseInsert(JObj(f)).error && ["items", k] + p in ParsePatch(JObj(f)).error
  {
    var items := f["items"];
    forall p | p in ItemIssues(items.fields[k])
      ensures ["items", k] + p in InsertIssues(JObj(f)) && ["items", k] + p in PatchIssues(JObj(f))
    {
      assert [k] + p in ItemsIssues(items);
      assert ["items"] + ([k] + p) == ["items", k] + p;
    }
    var p :| p in ItemIssues(items.fields[k]);
    assert ["items", k] + p in InsertIssues(JObj(f));
  }

  /** Nothing ties a record key to the id of the item stored under it. */
  lemma KeyNeedNotBeItemId()
    ensures var item := PackingItem("camera", "Camera", "electronics", None, false, 1, false);
      ParseItems(JObj(map["not-the-id" := ItemToJson(item)])) == Success(map["not-the-id" := item])
  {
    var item := PackingItem("camera", "Camera", "electronics", None, false, 1, false);
    var j := JObj(map["not-the-id" := ItemToJson(item)]);
    ItemRoundTrip(item);
    var r := ParseItems(j);
    assert r.Success?;
    assert r.value.Keys == {"not-the-id"};
    assert r.value["not-the-id"] == item;
    assert r.value == map["not-the-id" := item];
  }

  /** `f` and `g` hold the same value, or none, under key `k`. */
  predicate Agree(f: map<string, Json>, g: map<string, Json>, k: string) {
    (k in f <==> k in g) && (k in f ==> f[k] == g[k])
  }

  /** Dropping the server-assigned keys keeps every key either schema reads. */
  lemma DropServerFields(f: map<string, Json>)
    ensures var g := f - {"id", "createdAt", "updatedAt"};
      && Agree(f, g, "name") && Agree(f, g, "items") && DescriptorIssues(f) == DescriptorIssues(g)
      && Agree(f, g, "cruiseName") && Agree(f, g, "departureDate") && Agree(f, g, "cruiseLength")
      && Agree(f, g, "destinations") && Agree(f, g, "cabinType") && Agree(f, g, "weather")
      && Agree(f, g, "notes")
  {
    var g := f - {"id", "createdAt", "updatedAt"};
    KeepsRequired(f);
    KeepsTravel(f);
    KeepsCabin(f);
    SameRule(f, g, "cruiseName");
    SameRule(f, g, "departureDate");
    SameRule(f, g, "cruiseLength");
    SameRule(f, g, "destinations");
    SameRule(f, g, "cabinType");
    SameRule(f, g, "weather");
    SameRule(f, g, "notes");
  }

  /** Maps that agree on a key give the same verdict for its nullable text rule. */
  lemma SameRule(f: map<string, Json>, g: map<string, Json>, k: string)
    requires Agree(f, g, k)
    ensures NullableString(f, k) == NullableString(g, k)
  {
  }

  lemma KeepsRequired(f: map<string, Json>)
    ensures var g := f - {"id", "createdAt", "updatedAt"};
      Agree(f, g, "name") && Agree(f, g, "items")
  {
  }

  lemma KeepsTravel(f: map<string, Json>)
    ensures var g := f - {"id", "createdAt", "updatedAt"};
      && Agree(f, g, "cruiseName") && Agree(f, g, "departureDate") && Agree(f, g, "cruiseLength")
      && Agree(f, g, "destinations")
  {
  }

  lemma KeepsCabin(f: map<string, Json>)
    ensures var g := f - {"id", "createdAt", "updatedAt"};
      Agree(f, g, "cabinType") && Agree(f, g, "weather") && Agree(f, g, "notes")
  {
  }

  /** The server-assigned fields are not part of the insert schema: a body's `id`, `createdAt` and
      `updatedAt` keys change neither the verdict nor the payload. */
  lemma InsertIgnoresServerFields(f: map<string, Json>)
    ensures ParseInsert(JObj(f)) == ParseInsert(JObj(f - {"id", "createdAt", "updatedAt"}))
  {
    DropServerFields(f);
    assert InsertIssues(JObj(f)) == InsertIssues(JObj(f - {"id", "createdAt", "updatedAt"}));
  }

  /** Nor are they part of the partial schema. */
  lemma PatchIgnoresServerFields(f: map<string, Json>)
    ensures ParsePatch(JObj(f)) == ParsePatch(JObj(f - {"id", "createdAt", "updatedAt"}))
  {
    DropServerFields(f);
    assert PatchIssues(JObj(f)) == PatchIssues(JObj(f - {"id", "createdAt", "updatedAt"}));
  }

  /** `name` and `items` are required on create; a body that is not an object is refused outright. */
  lemma InsertRequiresNameAndItems(body: Json)
    ensures !body.JObj? ==> ParseInsert(body) == Failure({[]}) && ParsePatch(body) == Failure({[]})
    ensures body.JObj? && "name" !in body.fields ==> ["name"] in ParseInsert(body).error
    ensures body.JObj? && "items" !in body.fields ==> ["items"] in ParseInsert(body).error
  {
  }

  /** The patch that supplies every field of an insert payload. */
  function AsPatch(p: InsertList): ListPatch {
    ListPatch(Some(p.name), p.cruiseName, p.departureDate, p.cruiseLength, p.destinations,
              p.cabinType, p.weather, p.notes, Some(p.items))
  }

  /** The patch that supplies nothing. */
  const EmptyPatch := ListPatch(None, Absent, Absent, Absent, Absent, Absent, Absent, Absent, None)

  /** Whatever the insert schema accepts, the partial schema accepts with the same content. */
  lemma InsertIsPatch(body: Json)
    requires ParseInsert(body).Success?
    ensures ParsePatch(body) == Success(AsPatch(ParseInsert(body).value))
  {
  }

  /** The partial schema accepts the empty object, as an update that supplies nothing. */
  lemma EmptyBodyIsEmptyPatch()
    ensures ParsePatch(JObj(map[])) == Success(EmptyPatch)
  {
  }

  /** In an update, every field that is present obeys its insert rule. */
  lemma PatchFieldsObeyRules(f: map<string, Json>)
    requires ParsePatch(JObj(f)).Success?
    ensures "name" in f ==> f["name"].JStr? && ParsePatch(JObj(f)).value.name == Some(f["name"].s)
    ensures "items" in f ==>
      ParseItems(f["items"]).Success? && ParsePatch(JObj(f)).value.items == Some(ParseItems(f["items"]).value)
    ensures "name" !in f ==> ParsePatch(JObj(f)).value.name == None
    ensures "items" !in f ==> ParsePatch(JObj(f)).value.items == None
    ensures DescriptorIssues(f) == {}
    ensures var v := ParsePatch(JObj(f)).value;
      && v.cruiseName == TextField(f, "cruiseName") && v.departureDate == TextField(f, "departureDate")
      && v.cruiseLength == TextField(f, "cruiseLength") && v.destinations == TextField(f, "destinations")
      && v.cabinType == TextField(f, "cabinType") && v.weather == TextField(f, "weather")
      && v.notes == TextField(f, "notes")
  {
    ItemsIssuesEmptyIff(if "items" in f then f["items"] else JNull);
  }
}
