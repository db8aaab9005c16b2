/**
 * The state of the packing page and the handlers that change it: the id of the list last saved,
 * the item collection, the per-section notes and the cruise details form.
 */
module Page {
  import opened Wrappers
  import opened Schema
  import opened Catalogue

  /** The cruise details form. */
  datatype FormValues = FormValues(
    name: string,
    cruiseName: string,
    departureDate: string,
    cruiseLength: string,
    destinations: string,
    cabinType: string,
    weather: string,
    notes: string)

  /** The form's default values, which `form.reset()` restores. */
  const DefaultForm := FormValues("My Cruise Packing List", "", "", "", "", "", "", "")

  /** The sections with a notes field. */
  const NoteSections: seq<string> := ["clothing", "toiletries", "additional"]

  /** The body `handleSave` sends. */
  datatype SavePayload = SavePayload(form: FormValues, items: map<string, PackingItem>, notes: string)

  /** `notes.general || ""` */
  function GeneralNotes(notes: map<string, string>): string {
    if "general" in notes && notes["general"] != "" then notes["general"] else ""
  }

  /** The JSON body a client sends for a payload: the form, with `notes` and `items` replaced. */
  function PayloadToJson(p: SavePayload): Json {
    JObj(map[
      "name" := JStr(p.form.name),
      "cruiseName" := JStr(p.form.cruiseName),
      "departureDate" := JStr(p.form.departureDate),
      "cruiseLength" := JStr(p.form.cruiseLength),
      "destinations" := JStr(p.form.destinations),
      "cabinType" := JStr(p.form.cabinType),
      "weather" := JStr(p.form.weather),
      "notes" := JStr(p.notes),
      "items" := ItemsToJson(p.items)])
  }

  /** A payload of valid items passes the insert schema: the name arrives as given, the notes as given
      text and the items exactly as sent. */
  lemma PayloadAccepted(p: SavePayload)
    requires forall k :: k in p.items ==> ValidItem(p.items[k])
    ensures var r := ParseInsert(PayloadToJson(p));
      && r.Success? && r.value.name == p.form.name && r.value.notes == Given(p.notes)
      && r.value.items.Keys == p.items.Keys && forall k :: k in p.items ==> r.value.items[k] == p.items[k]
  {
    var f := PayloadToJson(p).fields;
    SavedItemsValidate(p.items);
    PayloadFields(p);
    InsertAccepted(f);
  }

  lemma PayloadFields(p: SavePayload)
    ensures var f := PayloadToJson(p).fields;
      && "name" in f && f["name"] == JStr(p.form.name)
      && "notes" in f && f["notes"] == JStr(p.notes)
      && "items" in f && f["items"] == ItemsToJson(p.items)
      && DescriptorIssues(f) == {}
  {
  }

  /** What a save sends passes the insert schema when every item is valid, and its notes arrive as
      the empty text. */
  lemma SaveAccepted(form: FormValues, cat: Catalogue)
    requires HasCategories(cat) && AllValid(cat)
    ensures var m := ById(Flatten(cat));
      var r := ParseInsert(PayloadToJson(SavePayload(form, m, "")));
      && r.Success? && r.value.notes == Given("")
      && r.value.items.Keys == m.Keys && forall k :: k in m ==> r.value.items[k] == m[k]
  {
    var s := Flatten(cat);
    var m := ById(s);
    forall k | k in m ensures ValidItem(m[k]) {
      var c :| c in cat && m[k] in cat[c];
      var i :| 0 <= i < |cat[c]| && cat[c][i] == m[k];
    }
    PayloadAccepted(SavePayload(form, m, ""));
  }

  class PackingPage {
    var currentListId: Option<string>
    var items: Catalogue
    var notes: map<string, string>
    var form: FormValues

    /** The collection has the five categories, and notes exist only for sections with a notes field. */
    ghost predicate Valid()
      reads this
    {
      HasCategories(items) && forall s :: s in notes ==> s in NoteSections
    }

    /** The page as first shown: the default catalogue, no notes, no saved list. */
    constructor()
      ensures Valid()
      ensures items == DefaultItems && notes == map[] && currentListId == None && form == DefaultForm
    {
      DefaultsListed();
      currentListId := None;
      items := DefaultItems;
      notes := map[];
      form := DefaultForm;
    }

    /** `handleUpdateItem` */
    method UpdateItem(id: string, u: ItemUpdate)
      requires Valid()
      modifies this
      ensures Valid()
      ensures items == Updated(old(items), id, u)
      ensures notes == old(notes) && currentListId == old(currentListId) && form == old(form)
    {
      UpdatedShape(items, id, u);
      items := UpdateItems(items, Categories, id, u);
    }

    /** `handleAddCustomItem`, with the generated id as a parameter. */
    method AddCustomItem(n: NewItem, id: string)
      requires Valid() && n.category in items
      modifies this
      ensures Valid()
      ensures items == WithCustomItem(old(items), n, id)
      ensures notes == old(notes) && currentListId == old(currentListId) && form == old(form)
    {
      items := WithCustomItem(items, n, id);
    }

    /** `handleRemoveItem` */
    method RemoveItem(id: string)
      requires Valid()
      modifies this
      ensures Valid()
      ensures items == Removed(old(items), id)
      ensures notes == old(notes) && currentListId == old(currentListId) && form == old(form)
    {
      items := Removed(items, id);
    }

    /** The notes field of one section. */
    method UpdateNotes(section: string, value: string)
      requires Valid() && section in NoteSections
      modifies this
      ensures Valid()
      ensures notes == old(notes)[section := value]
      ensures items == old(items) && currentListId == old(currentListId) && form == old(form)
    {
      notes := notes[section := value];
    }

    /** `handleClearAll`: when confirmed, the default catalogue, the default form, no notes and no saved
        list; otherwise nothing changes. */
    method ClearAll(confirmed: bool)
      requires Valid()
      modifies this
      ensures Valid()
      ensures confirmed ==> items == DefaultItems && notes == map[] && currentListId == None && form == DefaultForm
      ensures !confirmed ==>
        items == old(items) && notes == old(notes) && currentListId == old(currentListId) && form == old(form)
    {
      if confirmed {
        DefaultsListed();
        items := DefaultItems;
        form := DefaultForm;
        notes := map[];
        currentListId := None;
      }
    }

    /** `handleSave`: the form, the items flattened into an id-keyed record, and the general notes,
        which no section ever sets, so they are always empty. */
    method Save() returns (payload: SavePayload)
      requires Valid()
      ensures payload == SavePayload(form, ById(Flatten(items)), "")
      ensures GeneralNotes(notes) == ""
    {
      var all := CollectById(Flatten(items));
      payload := SavePayload(form, all, GeneralNotes(notes));
    }

    /** A successful save of a list not saved before remembers the id the server gave it. */
    method Saved(id: string)
      requires Valid()
      modifies this
      ensures Valid()
      ensures currentListId == if old(currentListId).None? then Some(id) else old(currentListId)
      ensures items == old(items) && notes == old(notes) && form == old(form)
    {
      if currentListId.None? {
        currentListId := Some(id);
      }
    }
  }

  /** The default catalogue lists the camera, unchecked, third among the electronics. */
  lemma DefaultCamera()
    ensures "electronics" in DefaultItems && |DefaultItems["electronics"]| == 6
    ensures DefaultItems["electronics"][2].id == "camera" && !DefaultItems["electronics"][2].checked
  {
    assert DefaultItems["electronics"] == ElectronicsDefaults;
  }

  /** Checking the camera on a fresh page and then clearing all leaves the camera unchecked again, as
      the default catalogue lists it. */
  method CameraResetByClearAll() returns (checkedAfterClear: bool)
    ensures !checkedAfterClear
  {
    var page := new PackingPage();
    page.UpdateItem("camera", NoChange.(checked := Some(true)));
    page.ClearAll(true);
    DefaultCamera();
    checkedAfterClear := page.items["electronics"][2].checked;
  }
}
